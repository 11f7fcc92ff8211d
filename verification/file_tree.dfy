/**
  A file tree with symbolic links, as the export code sees it through the
  operating system: path resolution, `mkdir` and the standard library's
  `create_dir_all`. A location is a canonical path, the names from the root; a
  path is what a program holds, to be resolved from a starting directory.
*/
module FileTree {
  import opened Common
  import opened Utf8Text

  type Location = seq<string>

  /** One step of a path: to the parent directory, or to an entry. */
  datatype Comp = Up | Name(name: string)

  datatype Node = Dir | File(content: seq<byte>) | Link(absolute: bool, target: seq<Comp>)

  type Tree = map<Location, Node>

  datatype IoError = NotFound | NotADirectory | NameTooLong | TooManyLinks | AlreadyExists | IsADirectory

  /** The bytes one name may have (`NAME_MAX` on Linux). */
  const NAME_MAX := 255

  predicate Fits(n: string) { Size(n) <= NAME_MAX }

  predicate NamesFit(q: seq<string>) { forall i :: 0 <= i < |q| ==> Fits(q[i]) }

  function Parent(l: Location): Location { if l == [] then [] else l[..|l| - 1] }

  ghost predicate WellFormed(t: Tree) {
    && [] in t && t[[]] == Dir
    && forall l :: l in t && l != [] ==> Parent(l) in t && t[Parent(l)] == Dir && Fits(l[|l| - 1])
  }

  function Names(q: seq<string>): (comps: seq<Comp>)
    ensures |comps| == |q|
  {
    seq(|q|, i requires 0 <= i < |q| => Name(q[i]))
  }

  // ---- Resolution ----

  /**
    What resolution does with the last component: follow it, stop at it even if
    it is a link (`lstat`), or allow it to be missing (`open` with `O_CREAT`).
  */
  datatype Mode = Follow | Stop | Create

  datatype Found = Found(at: Location, links: nat)

  predicate IsDir(t: Tree, l: Location) { l in t && t[l] == Dir }

  predicate IsLink(t: Tree, l: Location) { l in t && t[l].Link? }

  /** Resolution of `comps` from the directory `at`, following at most `links` links. */
  function Walk(t: Tree, at: Location, comps: seq<Comp>, links: nat, mode: Mode): Result<Found, IoError>
    decreases links, |comps|
  {
    if comps == [] then Ok(Found(at, links))
    else if !IsDir(t, at) then Err(NotADirectory)
    else
      match comps[0]
      case Up => Walk(t, Parent(at), comps[1..], links, mode)
      case Name(n) =>
        var child := at + [n];
        if !Fits(n) then Err(NameTooLong)
        else if child !in t then
          if |comps| == 1 && mode == Create then Ok(Found(child, links)) else Err(NotFound)
        else
          match t[child]
          case Link(absolute, target) =>
            if |comps| == 1 && mode == Stop then Ok(Found(child, links))
            else if links == 0 then Err(TooManyLinks)
            else Walk(t, if absolute then [] else at, target + comps[1..], links - 1, mode)
          case _ => Walk(t, child, comps[1..], links, mode)
  }

  /** Resolution goes on where it got to. */
  lemma {:induction false} WalkConcat(t: Tree, at: Location, xs: seq<Comp>, ys: seq<Comp>, links: nat, mode: Mode)
    requires ys != [] || mode == Follow
    ensures Walk(t, at, xs + ys, links, mode) ==
            match Walk(t, at, xs, links, Follow)
            case Ok(f) => Walk(t, f.at, ys, f.links, mode)
            case Err(e) => Err(e)
    decreases links, |xs|
  {
    hide Fits;
    if xs == [] {
      assert xs + ys == ys;
    } else if IsDir(t, at) {
      assert (xs + ys)[1..] == xs[1..] + ys;
      match xs[0]
      case Up => WalkConcat(t, Parent(at), xs[1..], ys, links, mode);
      case Name(n) =>
        var child := at + [n];
        if child in t {
          match t[child]
          case Link(absolute, target) =>
            if links > 0 {
              assert target + (xs + ys)[1..] == (target + xs[1..]) + ys;
              WalkConcat(t, if absolute then [] else at, target + xs[1..], ys, links - 1, mode);
            }
          case _ => WalkConcat(t, child, xs[1..], ys, links, mode);
        }
    }
  }

  lemma ParentIsDir(t: Tree, l: Location)
    requires WellFormed(t) && l in t
    ensures IsDir(t, []) && IsDir(t, Parent(l))
  {
  }

  /** What is found exists (unless it may be created) and is not a link that was to be followed. */
  ghost predicate Stands(t: Tree, mode: Mode, r: Result<Found, IoError>) {
    r.Ok? ==> (mode != Create ==> r.value.at in t) && (mode != Stop ==> !IsLink(t, r.value.at))
  }

  lemma {:induction false} WalkLands(t: Tree, at: Location, comps: seq<Comp>, links: nat, mode: Mode)
    requires WellFormed(t) && at in t && !IsLink(t, at)
    ensures Stands(t, mode, Walk(t, at, comps, links, mode))
    decreases links, |comps|
  {
    ParentIsDir(t, at);
    hide WellFormed, Parent, Fits, Stands, Walk;
    if comps == [] || !IsDir(t, at) || Ends(t, at, comps, links, mode) {
      EndStands(t, at, comps, links, mode);
    } else {
      GoesOn(t, at, comps, links, mode);
      match comps[0]
      case Up => WalkLands(t, Parent(at), comps[1..], links, mode);
      case Name(n) =>
        match t[at + [n]]
        case Link(absolute, target) => WalkLands(t, if absolute then [] else at, target + comps[1..], links - 1, mode);
        case _ => WalkLands(t, at + [n], comps[1..], links, mode);
    }
  }

  /** Resolution does not go past the first component. */
  ghost predicate Ends(t: Tree, at: Location, comps: seq<Comp>, links: nat, mode: Mode)
    requires comps != []
  {
    comps[0].Name? &&
    var child := at + [comps[0].name];
    || !Fits(comps[0].name) || child !in t
    || (t[child].Link? && (links == 0 || (|comps| == 1 && mode == Stop)))
  }

  lemma EndStands(t: Tree, at: Location, comps: seq<Comp>, links: nat, mode: Mode)
    requires at in t && !IsLink(t, at) && (comps == [] || !IsDir(t, at) || Ends(t, at, comps, links, mode))
    ensures Stands(t, mode, Walk(t, at, comps, links, mode))
  {
    hide Fits;
  }

  lemma GoesOn(t: Tree, at: Location, comps: seq<Comp>, links: nat, mode: Mode)
    requires comps != [] && IsDir(t, at) && !Ends(t, at, comps, links, mode)
    ensures Walk(t, at, comps, links, mode) ==
            match comps[0]
            case Up => Walk(t, Parent(at), comps[1..], links, mode)
            case Name(n) =>
              match t[at + [n]]
              case Link(absolute, target) => Walk(t, if absolute then [] else at, target + comps[1..], links - 1, mode)
              case _ => Walk(t, at + [n], comps[1..], links, mode)
  {
    hide Fits;
  }

  ghost predicate Extends(t: Tree, u: Tree) { forall l :: l in t ==> l in u && u[l] == t[l] }

  /** `u` is `t` with more directories. */
  ghost predicate Grows(t: Tree, u: Tree) { Extends(t, u) && forall l :: l in u && l !in t ==> u[l] == Dir }

  /** Directories and links stay as they are, and files stay files. */
  ghost predicate KeepsKinds(t: Tree, u: Tree) {
    forall l :: l in t ==> l in u && if t[l].File? then u[l].File? else u[l] == t[l]
  }

  /** New entries, and new contents, do not change what already resolves. */
  lemma {:induction false} WalkInGrown(t: Tree, u: Tree, at: Location, comps: seq<Comp>, links: nat)
    requires KeepsKinds(t, u) && Walk(t, at, comps, links, Follow).Ok?
    ensures Walk(u, at, comps, links, Follow) == Walk(t, at, comps, links, Follow)
    decreases links, |comps|
  {
    if comps != [] {
      match comps[0]
      case Up => WalkInGrown(t, u, Parent(at), comps[1..], links);
      case Name(n) =>
        match t[at + [n]]
        case Link(absolute, target) =>
          WalkInGrown(t, u, if absolute then [] else at, target + comps[1..], links - 1);
        case _ => WalkInGrown(t, u, at + [n], comps[1..], links);
    }
  }

  /** Where a new entry may be created, there is a directory for it. */
  lemma {:induction false} CreatesInADirectory(t: Tree, at: Location, comps: seq<Comp>, links: nat)
    requires at in t && WellFormed(t) && Walk(t, at, comps, links, Create).Ok?
    ensures var l := Walk(t, at, comps, links, Create).value.at;
            l !in t ==> l != [] && IsDir(t, l[..|l| - 1]) && Fits(l[|l| - 1])
    decreases links, |comps|
  {
    if comps != [] {
      ParentIsDir(t, at);
      hide WellFormed, Fits;
      match comps[0]
      case Up => CreatesInADirectory(t, Parent(at), comps[1..], links);
      case Name(n) =>
        var child := at + [n];
        if child in t {
          match t[child]
          case Link(absolute, target) =>
            CreatesInADirectory(t, if absolute then [] else at, target + comps[1..], links - 1);
          case _ => CreatesInADirectory(t, child, comps[1..], links);
        }
    }
  }

  /** Every entry on the way from `root` along `q` that exists is not a link. */
  ghost predicate NoLinks(t: Tree, root: Location, q: seq<string>) {
    forall k :: 0 < k <= |q| ==> !IsLink(t, root + q[..k])
  }

  lemma ConsPath(root: Location, q: seq<string>, k: nat)
    requires q != [] && 0 < k <= |q|
    ensures root + q[..k] == (root + [q[0]]) + q[1..][..k - 1]
    ensures Names(q)[0] == Name(q[0]) && Names(q)[1..] == Names(q[1..])
  {
  }

  /** Along plain entries a path of names resolves to the same names. */
  lemma {:induction false} PlainWalk(t: Tree, root: Location, q: seq<string>, links: nat, mode: Mode)
    requires NoLinks(t, root, q) && Walk(t, root, Names(q), links, mode).Ok?
    ensures Walk(t, root, Names(q), links, mode) == Ok(Found(root + q, links))
    ensures NamesFit(q) && forall k :: 0 <= k < |q| ==> IsDir(t, root + q[..k])
    ensures mode != Create ==> root + q in t || q == []
    decreases |q|
  {
    if q == [] {
      assert root + q == root;
    } else {
      var child := root + [q[0]];
      ConsPath(root, q, 1);
      assert root + q[..1] == child;
      if |q| == 1 { assert root + q == child && Names(q)[1..] == []; }
      if child in t {
        forall k | 0 < k <= |q[1..]| ensures !IsLink(t, child + q[1..][..k]) { ConsPath(root, q, k + 1); }
        assert child + q[1..] == root + q;
        assert Walk(t, root, Names(q), links, mode) == Walk(t, child, Names(q[1..]), links, mode) || |q| == 1;
        PlainWalk(t, child, q[1..], links, mode);
      }
      forall k | 0 <= k < |q| ensures IsDir(t, root + q[..k]) {
        if k == 0 { assert root + q[..0] == root; } else { ConsPath(root, q, k); }
      }
    }
  }

  /** Through directories a path of names arrives. */
  lemma {:induction false} WalkThroughDirs(t: Tree, root: Location, q: seq<string>, links: nat, mode: Mode)
    requires NamesFit(q) && forall k :: 0 <= k < |q| ==> IsDir(t, root + q[..k])
    requires root + q in t || mode == Create || q == []
    requires mode == Stop || !IsLink(t, root + q) || q == []
    ensures Walk(t, root, Names(q), links, mode) == Ok(Found(root + q, links))
    decreases |q|
  {
    if q == [] {
      assert root + q == root;
    } else {
      var child := root + [q[0]];
      ConsPath(root, q, 1);
      assert root + q[..1] == child && root + q[..0] == root;
      if |q| == 1 {
        assert q == [q[0]] && Names(q)[1..] == [];
      } else {
        assert IsDir(t, root + q[..0]) && IsDir(t, root + q[..1]);
        forall k | 0 <= k < |q[1..]| ensures IsDir(t, child + q[1..][..k]) { ConsPath(root, q, k + 1); }
        assert child + q[1..] == root + q;
        WalkThroughDirs(t, child, q[1..], links, mode);
      }
    }
  }

  /** What lies above an entry is directories. */
  lemma {:induction false} DirsAbove(t: Tree, l: Location, k: nat)
    requires WellFormed(t) && l in t && k < |l|
    ensures IsDir(t, l[..k])
    decreases |l| - k
  {
    if k + 1 < |l| {
      DirsAbove(t, l, k + 1);
      assert Parent(l[..k + 1]) == l[..k];
    } else {
      assert Parent(l) == l[..k];
    }
  }

  /** A path that resolves has no name that is too long. */
  lemma {:induction false} WalkedNamesFit(t: Tree, at: Location, comps: seq<Comp>, links: nat, mode: Mode)
    requires Walk(t, at, comps, links, mode).Ok?
    ensures forall i :: 0 <= i < |comps| && comps[i].Name? ==> Fits(comps[i].name)
    decreases links, |comps|
  {
    if comps != [] {
      hide Fits;
      var rest := comps[1..];
      assert forall i :: 0 < i < |comps| ==> comps[i] == rest[i - 1];
      match comps[0]
      case Up => WalkedNamesFit(t, Parent(at), rest, links, mode);
      case Name(n) =>
        var child := at + [n];
        if |comps| > 1 {
          match t[child]
          case Link(absolute, target) =>
            WalkedNamesFit(t, if absolute then [] else at, target + rest, links - 1, mode);
            assert forall i :: 0 <= i < |rest| ==> (target + rest)[|target| + i] == rest[i];
          case _ => WalkedNamesFit(t, child, rest, links, mode);
        }
    }
  }

  lemma NameFits(t: Tree, l: Location, k: nat)
    requires WellFormed(t) && l in t && k < |l|
    ensures Fits(l[k])
  {
    hide Fits;
    if k + 1 < |l| { DirsAbove(t, l, k + 1); } else { assert l[..k + 1] == l; }
    assert l[..k + 1] in t && l[..k + 1][k] == l[k];
  }

  /** The names of what is there are short enough. */
  lemma NamesOfAnEntryFit(t: Tree, root: Location, q: seq<string>)
    requires WellFormed(t) && root + q in t
    ensures NamesFit(q)
  {
    hide WellFormed, Fits;
    forall i | 0 <= i < |q| ensures Fits(q[i]) {
      NameFits(t, root + q, |root| + i);
      assert (root + q)[|root| + i] == q[i];
    }
  }

  lemma DirsBetween(t: Tree, root: Location, q: seq<string>)
    requires WellFormed(t) && root + q in t
    ensures forall k :: 0 <= k < |q| ==> IsDir(t, root + q[..k])
  {
    forall k | 0 <= k < |q| ensures IsDir(t, root + q[..k]) {
      DirsAbove(t, root + q, |root| + k);
      assert (root + q)[..|root| + k] == root + q[..k];
    }
  }

  // ---- Creating directories ----

  function Mkdir(t: Tree, start: Location, comps: seq<Comp>, links: nat): Result<Tree, IoError>
    requires comps != []
  {
    match Walk(t, start, comps[..|comps| - 1], links, Follow)
    case Err(e) => Err(e)
    case Ok(f) =>
      if !IsDir(t, f.at) then Err(NotADirectory)
      else
        match comps[|comps| - 1]
        case Up => Err(AlreadyExists)
        case Name(n) =>
          if !Fits(n) then Err(NameTooLong)
          else if f.at + [n] in t then Err(AlreadyExists)
          else Ok(t[f.at + [n] := Dir])
  }

  predicate ResolvesToDir(t: Tree, start: Location, comps: seq<Comp>, links: nat) {
    var r := Walk(t, start, comps, links, Follow);
    r.Ok? && IsDir(t, r.value.at)
  }

  datatype Created = Created(tree: Tree, ok: bool)

  /** `create_dir_all`: try the directory itself, and only if a parent is missing create the parent first. */
  function CreateAll(t: Tree, start: Location, comps: seq<Comp>, links: nat): Created
    decreases |comps|
  {
    if comps == [] then Created(t, true)
    else
      match Mkdir(t, start, comps, links)
      case Ok(u) => Created(u, true)
      case Err(NotFound) =>
        var up := CreateAll(t, start, comps[..|comps| - 1], links);
        if !up.ok then up
        else (
          match Mkdir(up.tree, start, comps, links)
          case Ok(u) => Created(u, true)
          case Err(_) => Created(up.tree, ResolvesToDir(up.tree, start, comps, links))
        )
      case Err(_) => Created(t, ResolvesToDir(t, start, comps, links))
  }

  lemma SplitLast(comps: seq<Comp>)
    requires comps != []
    ensures comps == comps[..|comps| - 1] + [comps[|comps| - 1]]
  {
  }

  lemma OneMoreEntry(t: Tree, at: Location, n: string, node: Node)
    requires WellFormed(t) && IsDir(t, at) && Fits(n) && at + [n] !in t
    ensures WellFormed(t[at + [n] := node])
  {
    hide Fits;
    var u := t[at + [n] := node];
    assert Parent(at + [n]) == at && at + [n] != at;
    forall l | l in u && l != [] ensures Parent(l) in u && u[Parent(l)] == Dir && Fits(l[|l| - 1]) {
      if l != at + [n] { assert Parent(l) in t && Parent(l) != at + [n]; }
    }
  }

  lemma MkdirGrows(t: Tree, start: Location, comps: seq<Comp>, links: nat)
    requires WellFormed(t) && comps != [] && Mkdir(t, start, comps, links).Ok?
    ensures var u := Mkdir(t, start, comps, links).value;
            var r := Walk(u, start, comps, links, Follow);
            && WellFormed(u) && Grows(t, u) && ResolvesToDir(u, start, comps, links)
            && r.value.at !in t && forall l :: l in u ==> l in t || l == r.value.at
    ensures Walk(t, start, comps, links, Follow) == Err(NotFound)
  {
    var u := Mkdir(t, start, comps, links).value;
    var front, last := comps[..|comps| - 1], comps[|comps| - 1];
    var f := Walk(t, start, front, links, Follow).value;
    var child := f.at + [last.name];
    OneMoreEntry(t, f.at, last.name, Dir);
    WalkInGrown(t, u, start, front, links);
    SplitLast(comps);
    WalkConcat(u, start, front, [last], links, Follow);
    WalkConcat(t, start, front, [last], links, Follow);
    assert [last][1..] == [];
  }

  lemma GrowsOn(t: Tree, u: Tree, v: Tree)
    requires Grows(t, u) && Grows(u, v)
    ensures Grows(t, v)
  {
  }

  lemma GrowsNone(t: Tree)
    ensures Grows(t, t)
  {
  }

  /** `create_dir_all` only ever adds directories, and on success the path leads to one. */
  lemma {:induction false} CreateAllGrows(t: Tree, start: Location, comps: seq<Comp>, links: nat)
    requires WellFormed(t) && IsDir(t, start)
    ensures var c := CreateAll(t, start, comps, links);
            WellFormed(c.tree) && Grows(t, c.tree) && (c.ok ==> ResolvesToDir(c.tree, start, comps, links))
    decreases |comps|
  {
    GrowsNone(t);
    if comps != [] {
      hide WellFormed, Walk, Mkdir, Grows, ResolvesToDir;
      match Mkdir(t, start, comps, links)
      case Ok(u) => MkdirGrows(t, start, comps, links);
      case Err(NotFound) =>
        CreateAllGrows(t, start, comps[..|comps| - 1], links);
        var up := CreateAll(t, start, comps[..|comps| - 1], links);
        if up.ok && Mkdir(up.tree, start, comps, links).Ok? {
          MkdirGrows(up.tree, start, comps, links);
          GrowsOn(t, up.tree, Mkdir(up.tree, start, comps, links).value);
        }
      case Err(_) =>
    } else {
      assert Walk(t, start, comps, links, Follow) == Ok(Found(start, links));
    }
  }
}
