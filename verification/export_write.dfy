/**
  Writing an export to disk (`src/export.rs`): a bundle file by file, or an
  archive entry by entry under limits on entries and bytes.
*/
module ExportWrite {
  import opened Common
  import opened ExportBudget
  import opened ExportTree
  import opened FileTree
  import opened PathText
  import opened Utf8Text

  const MAX_ARCHIVE_ENTRIES := 10_000
  const MAX_ARCHIVE_BYTES := 512 * 1024 * 1024

  /** `fs::write`: create or replace the file the path opens. */
  function WriteFile(t: Tree, start: Location, comps: seq<Comp>, content: seq<byte>, links: nat): Result<Tree, IoError> {
    match Walk(t, start, comps, links, Create)
    case Err(e) => Err(e)
    case Ok(f) => if IsDir(t, f.at) then Err(IsADirectory) else Ok(t[f.at := FileTree.File(content)])
  }

  /** A name and the bytes to write under it. */
  datatype Item = Item(name: string, content: seq<byte>)

  datatype Written = Written(tree: Tree, result: Result<seq<seq<Comp>>, ExportError>)

  ghost function WriteOne(t: Tree, start: Location, target: seq<Comp>, item: Item, links: nat): Prepared {
    var p := Prepare(t, start, target, item.name, links);
    if p.result.Err? then p
    else
      match WriteFile(p.tree, start, p.result.value, item.content, links)
      case Ok(u) => Prepared(u, p.result)
      case Err(e) => Prepared(p.tree, Err(CannotWrite(e)))
  }

  /** The items one after the other, until one fails. */
  ghost function WriteAll(t: Tree, start: Location, target: seq<Comp>, items: seq<Item>, links: nat): Written {
    if items == [] then Written(t, Ok([]))
    else
      var before := WriteAll(t, start, target, items[..|items| - 1], links);
      if before.result.Err? then before
      else
        var p := WriteOne(before.tree, start, target, items[|items| - 1], links);
        match p.result
        case Ok(path) => Written(p.tree, Ok(before.result.value + [path]))
        case Err(e) => Written(p.tree, Err(e))
  }

  /** Whatever comes after the item that fails is not reached. */
  lemma {:induction false} FailureStops(t: Tree, start: Location, target: seq<Comp>, items: seq<Item>, n: nat, links: nat)
    requires n <= |items| && WriteAll(t, start, target, items[..n], links).result.Err?
    ensures WriteAll(t, start, target, items, links) == WriteAll(t, start, target, items[..n], links)
  {
    if n == |items| {
      assert items[..n] == items;
    } else {
      assert items[..|items| - 1][..n] == items[..n];
      FailureStops(t, start, target, items[..|items| - 1], n, links);
    }
  }

  /** Every success is one path per item. */
  lemma {:induction false} OnePathPerItem(t: Tree, start: Location, target: seq<Comp>, items: seq<Item>, links: nat)
    ensures var r := WriteAll(t, start, target, items, links).result; r.Ok? ==> |r.value| == |items|
  {
    if items != [] { OnePathPerItem(t, start, target, items[..|items| - 1], links); }
  }

  lemma WriteAllStep(t: Tree, start: Location, target: seq<Comp>, items: seq<Item>, item: Item, links: nat)
    requires WriteAll(t, start, target, items, links).result.Ok?
    ensures var w := WriteAll(t, start, target, items, links);
            var p := WriteOne(w.tree, start, target, item, links);
            WriteAll(t, start, target, items + [item], links) ==
            match p.result
            case Ok(path) => Written(p.tree, Ok(w.result.value + [path]))
            case Err(e) => Written(p.tree, Err(e))
  {
  }

  lemma NothingWritten(t: Tree, start: Location, target: seq<Comp>, links: nat)
    ensures WriteAll(t, start, target, [], links) == Written(t, Ok([]))
  {
  }

  // ---- The bundle ----

  function Items(files: seq<File>): seq<Item> {
    seq(|files|, i requires 0 <= i < |files| => Item(files[i].path, Utf8(files[i].content)))
  }

  method WriteItem(d: Disk, target: seq<Comp>, item: Item) returns (r: Result<seq<Comp>, ExportError>)
    modifies d
    ensures Prepared(d.tree, r) == WriteOne(old(d.tree), d.start, target, item, d.links)
  {
    hide Prepare, Walk;
    r := d.PrepareOutputPath(target, item.name);
    if r.Ok? {
      match WriteFile(d.tree, d.start, r.value, item.content, d.links)
      case Ok(u) => d.tree := u;
      case Err(e) => r := Err(CannotWrite(e));
    }
  }

  /** `write_bundle_to_directory` */
  method WriteBundle(d: Disk, b: Bundle, target: seq<Comp>) returns (r: Result<seq<seq<Comp>>, ExportError>)
    modifies d
    ensures !WithinBudget(b) ==> d.tree == old(d.tree) && r.Err? && r.error.OverBudget?
    ensures WithinBudget(b) ==> Written(d.tree, r) == WriteAll(old(d.tree), d.start, target, Items(b.files), d.links)
  {
    hide WithinBudget, WriteOne, WriteAll;
    var valid := ValidateBundle(b);
    if valid.Err? { return Err(OverBudget(valid.error)); }
    var paths: seq<seq<Comp>> := [];
    ghost var items := Items(b.files);
    NothingWritten(d.tree, d.start, target, d.links);
    assert items[..0] == [];
    for i := 0 to |b.files|
      invariant Written(d.tree, Ok(paths)) == WriteAll(old(d.tree), d.start, target, items[..i], d.links)
    {
      WriteAllStep(old(d.tree), d.start, target, items[..i], items[i], d.links);
      assert items[..i + 1] == items[..i] + [items[i]];
      var path := WriteItem(d, target, Item(b.files[i].path, Utf8(b.files[i].content)));
      if path.Err? {
        FailureStops(old(d.tree), d.start, target, items, i + 1, d.links);
        return Err(path.error);
      }
      paths := paths + [path.value];
    }
    assert items[..|b.files|] == items;
    return Ok(paths);
  }

  // ---- The archive ----

  /**
    An archive entry: its header cannot be read, or it has a name and content.
    When the content breaks off, `content` is what can be read before that.
  */
  datatype Entry = Unreadable | Entry(name: string, content: seq<byte>, intact: bool)

  /** A directory entry is named like one. */
  predicate NamesDirectory(name: string) { name != "" && (name[|name| - 1] == '/' || name[|name| - 1] == '\\') }

  lemma DirectoryNames(name: string)
    ensures NamesDirectory(name) <==> exists stem :: name == stem + "/" || name == stem + "\\"
  {
    if NamesDirectory(name) {
      var stem := name[..|name| - 1];
      assert name == stem + [name[|name| - 1]];
    }
  }

  predicate IsItem(e: Entry) { e.Entry? && !NamesDirectory(e.name) }

  function ItemsOf(entries: seq<Entry>): seq<Item> {
    if entries == [] then []
    else
      var e := entries[|entries| - 1];
      ItemsOf(entries[..|entries| - 1]) + if IsItem(e) then [Item(e.name, e.content)] else []
  }

  function ByteCount(items: seq<Item>): nat {
    if items == [] then 0 else ByteCount(items[..|items| - 1]) + |items[|items| - 1].content|
  }

  /** Every entry that will be read can be. */
  ghost predicate Readable(entries: seq<Entry>) {
    forall e :: e in entries ==> e.Entry? && (IsItem(e) ==> e.intact)
  }

  lemma {:induction false} ItemsOfPrefix(entries: seq<Entry>, i: nat)
    requires i <= |entries|
    ensures ItemsOf(entries[..i]) <= ItemsOf(entries)
  {
    if i == |entries| {
      assert entries[..i] == entries;
    } else {
      ItemsOfPrefix(entries[..|entries| - 1], i);
      assert entries[..|entries| - 1][..i] == entries[..i];
    }
  }

  lemma {:induction false} ByteCountOfPrefix(items: seq<Item>, n: nat)
    requires n <= |items|
    ensures ByteCount(items[..n]) <= ByteCount(items)
  {
    if n == |items| {
      assert items[..n] == items;
    } else {
      ByteCountOfPrefix(items[..|items| - 1], n);
      assert items[..|items| - 1][..n] == items[..n];
    }
  }

  lemma ByteCountStep(items: seq<Item>, item: Item)
    ensures ByteCount(items + [item]) == ByteCount(items) + |item.content|
  {
  }

  /** How the items, their bytes and their readability grow by the entry at `i`. */
  lemma EntryStep(entries: seq<Entry>, i: nat)
    requires i < |entries| && Readable(entries[..i])
    ensures var e, items := entries[i], ItemsOf(entries[..i]);
            var now := if IsItem(e) then items + [Item(e.name, e.content)] else items;
            && ItemsOf(entries[..i + 1]) == now
            && ByteCount(now) == ByteCount(items) + (if IsItem(e) then |e.content| else 0)
            && (Readable(entries[..i + 1]) <==> e.Entry? && (IsItem(e) ==> e.intact))
  {
    var e, items := entries[i], ItemsOf(entries[..i]);
    assert entries[..i + 1] == entries[..i] + [e] && entries[..i + 1][..i] == entries[..i] && e in entries[..i + 1];
    if IsItem(e) { ByteCountStep(items, Item(e.name, e.content)); }
  }

  /** What is true of the first entries is within what is true of all. */
  lemma EntriesSoFar(entries: seq<Entry>, i: nat)
    requires i <= |entries|
    ensures var items := ItemsOf(entries[..i]);
            && |items| <= |ItemsOf(entries)| && ItemsOf(entries)[..|items|] == items
            && ByteCount(items) <= ByteCount(ItemsOf(entries))
            && (Readable(entries) ==> Readable(entries[..i]))
  {
    var items := ItemsOf(entries[..i]);
    ItemsOfPrefix(entries, i);
    assert ItemsOf(entries)[..|items|] == items;
    ByteCountOfPrefix(ItemsOf(entries), |items|);
  }

  /** One call of the unpacker: the limits and its archive. */
  datatype Call = Call(t: Tree, start: Location, target: seq<Comp>, links: nat, entries: seq<Entry>, maxEntries: nat, maxBytes: nat)

  ghost function WritesAll(c: Call): Written { WriteAll(c.t, c.start, c.target, ItemsOf(c.entries), c.links) }

  /**
    What an unpacking may end in. The bytes written never pass the limit; within
    the limits it is exactly the writing of the entries' items; each refusal has
    its reason, and any other failure is that of the writing.
  */
  ghost predicate EndsAs(c: Call, w: Written, expanded: nat) {
    var items, r := ItemsOf(c.entries), w.result;
    && expanded <= c.maxBytes
    && (r.Err? && r.error.TooManyEntries? <==> |c.entries| > c.maxEntries)
    && (r.Err? && r.error.TooManyEntries? ==> w.tree == c.t && expanded == 0)
    && (r.Err? && r.error.TooManyBytes? ==> ByteCount(items) > c.maxBytes)
    && (r.Err? && r.error.BrokenArchive? ==> !Readable(c.entries))
    && (!LimitReached(r) ==> w == WritesAll(c))
    && (r.Ok? ==> Readable(c.entries) && ByteCount(items) == expanded)
  }

  predicate LimitReached<T>(r: Result<T, ExportError>) {
    r.Err? && (r.error.TooManyEntries? || r.error.TooManyBytes? || r.error.BrokenArchive?)
  }

  lemma PreparationIsNoLimit(t: Tree, start: Location, target: seq<Comp>, name: string, links: nat)
    ensures !LimitReached(Prepare(t, start, target, name, links).result)
  {
    hide Walk, CreateAll, Components;
  }

  /** One entry: its place is prepared, then its content is read through a reader limited to what remains. */
  method WriteEntry(d: Disk, target: seq<Comp>, e: Entry, remaining: nat) returns (r: Result<seq<Comp>, ExportError>)
    requires IsItem(e)
    modifies d
    ensures r.Err? && r.error.TooManyBytes? ==> |e.content| > remaining
    ensures r.Err? && r.error.BrokenArchive? ==> !e.intact
    ensures r.Ok? ==> e.intact && |e.content| <= remaining
    ensures !(r.Err? && r.error.TooManyEntries?)
    ensures !LimitReached(r) ==>
              Prepared(d.tree, r) == WriteOne(old(d.tree), d.start, target, Item(e.name, e.content), d.links)
  {
    hide Walk, Prepare, NamesDirectory;
    PreparationIsNoLimit(d.tree, d.start, target, e.name, d.links);
    r := d.PrepareOutputPath(target, e.name);
    if r.Err? { return; }
    if |e.content| > remaining { return Err(TooManyBytes); }
    if !e.intact { return Err(BrokenArchive); }
    match WriteFile(d.tree, d.start, r.value, e.content, d.links)
    case Ok(u) => d.tree := u;
    case Err(io) => r := Err(CannotWrite(io));
  }

  /** Where the loop stands before entry `i`. */
  ghost predicate Standing(c: Call, i: nat, w: Written, expanded: nat)
    requires i <= |c.entries|
  {
    && |c.entries| <= c.maxEntries && Readable(c.entries[..i])
    && expanded == ByteCount(ItemsOf(c.entries[..i])) <= c.maxBytes
    && w.result.Ok? && w == WriteAll(c.t, c.start, c.target, ItemsOf(c.entries[..i]), c.links)
  }

  lemma StandingAtFirst(c: Call)
    requires |c.entries| <= c.maxEntries
    ensures Standing(c, 0, Written(c.t, Ok([])), 0)
  {
  }

  lemma StandingAtLast(c: Call, w: Written, expanded: nat)
    requires Standing(c, |c.entries|, w, expanded)
    ensures EndsAs(c, w, expanded)
  {
    assert c.entries[..|c.entries|] == c.entries;
  }

  lemma SkipDirectory(c: Call, i: nat, w: Written, expanded: nat)
    requires i < |c.entries| && Standing(c, i, w, expanded) && c.entries[i].Entry? && !IsItem(c.entries[i])
    ensures Standing(c, i + 1, w, expanded)
  {
    EntryStep(c.entries, i);
  }

  lemma UnreadableEntry(c: Call, i: nat, w: Written, expanded: nat)
    requires i < |c.entries| && Standing(c, i, w, expanded) && c.entries[i].Unreadable?
    ensures EndsAs(c, w.(result := Err(BrokenArchive)), expanded)
  {
    assert c.entries[i] in c.entries;
  }

  /** The entry's own outcome `p` carries the loop on, or ends it. */
  lemma AfterEntry(c: Call, i: nat, w: Written, expanded: nat, p: Prepared)
    requires i < |c.entries| && Standing(c, i, w, expanded) && IsItem(c.entries[i])
    requires var e := c.entries[i];
             && (p.result.Err? && p.result.error.TooManyBytes? ==> |e.content| > c.maxBytes - expanded)
             && (p.result.Err? && p.result.error.BrokenArchive? ==> !e.intact)
             && (p.result.Ok? ==> e.intact && |e.content| <= c.maxBytes - expanded)
             && !(p.result.Err? && p.result.error.TooManyEntries?)
             && (!LimitReached(p.result) ==> p == WriteOne(w.tree, c.start, c.target, Item(e.name, e.content), c.links))
    ensures p.result.Err? ==> EndsAs(c, Written(p.tree, Err(p.result.error)), expanded)
    ensures p.result.Ok? ==> Standing(c, i + 1, Written(p.tree, Ok(w.result.value + [p.result.value])), expanded + |c.entries[i].content|)
  {
    hide WriteOne, ItemsOf, ByteCount, WriteAll;
    var e, items := c.entries[i], ItemsOf(c.entries[..i]);
    assert e in c.entries;
    EntryStep(c.entries, i);
    EntriesSoFar(c.entries, i + 1);
    WriteAllStep(c.t, c.start, c.target, items, Item(e.name, e.content), c.links);
    if p.result.Err? && !LimitReached(p.result) {
      FailureStops(c.t, c.start, c.target, ItemsOf(c.entries), |items| + 1, c.links);
    }
  }

  /** `unpack_zip_with_limits` */
  method Unpack(d: Disk, entries: seq<Entry>, target: seq<Comp>, maxEntries: nat, maxBytes: nat)
    returns (r: Result<seq<seq<Comp>>, ExportError>, expanded: nat)
    modifies d
    ensures EndsAs(Call(old(d.tree), d.start, target, d.links, entries, maxEntries, maxBytes), Written(d.tree, r), expanded)
  {
    ghost var c := Call(d.tree, d.start, target, d.links, entries, maxEntries, maxBytes);
    expanded := 0;
    if |entries| > maxEntries { return Err(TooManyEntries), 0; }
    hide EndsAs, Standing, WriteOne, WriteAll;
    var paths: seq<seq<Comp>> := [];
    StandingAtFirst(c);
    for i := 0 to |entries|
      invariant Standing(c, i, Written(d.tree, Ok(paths)), expanded)
      invariant expanded <= maxBytes
    {
      var e := entries[i];
      ghost var before := Written(d.tree, Ok(paths));
      if e.Unreadable? {
        UnreadableEntry(c, i, before, expanded);
        return Err(BrokenArchive), expanded;
      }
      if NamesDirectory(e.name) {
        SkipDirectory(c, i, before, expanded);
        continue;
      }
      var w := WriteEntry(d, target, e, maxBytes - expanded);
      AfterEntry(c, i, before, expanded, Prepared(d.tree, w));
      if w.Err? { return Err(w.error), expanded; }
      expanded := expanded + |e.content|;
      paths := paths + [w.value];
      WithinLimit(c, i + 1, Written(d.tree, Ok(paths)), expanded);
    }
    StandingAtLast(c, Written(d.tree, Ok(paths)), expanded);
    return Ok(paths), expanded;
  }

  lemma WithinLimit(c: Call, i: nat, w: Written, expanded: nat)
    requires i <= |c.entries| && Standing(c, i, w, expanded)
    ensures expanded <= c.maxBytes
  {
  }

  // ---- Archiving, then unpacking ----

  /** `bundle_to_zip_file`: the archive holds the bundle's paths and contents, in order. */
  function Zip(files: seq<File>): seq<Entry> {
    seq(|files|, i requires 0 <= i < |files| => Entry(files[i].path, Utf8(files[i].content), true))
  }

  predicate NoDirectoryNames(files: seq<File>) { forall i :: 0 <= i < |files| ==> !NamesDirectory(files[i].path) }

  lemma ZipStep(files: seq<File>)
    requires files != []
    ensures var front, last := files[..|files| - 1], files[|files| - 1];
            var item := Item(last.path, Utf8(last.content));
            && ItemsOf(Zip(files)) == ItemsOf(Zip(front)) + (if NamesDirectory(last.path) then [] else [item])
            && Items(files) == Items(front) + [item]
            && (NoDirectoryNames(files) <==> NoDirectoryNames(front) && !NamesDirectory(last.path))
  {
    hide Utf8, NamesDirectory;
    var zip := Zip(files);
    assert zip[..|files| - 1] == Zip(files[..|files| - 1]);
    assert files == files[..|files| - 1] + [files[|files| - 1]];
  }

  lemma {:induction false} ItemsOfZip(files: seq<File>)
    ensures NoDirectoryNames(files) ==> ItemsOf(Zip(files)) == Items(files)
    ensures |ItemsOf(Zip(files))| <= |files|
    ensures !NoDirectoryNames(files) ==> |ItemsOf(Zip(files))| < |files|
    ensures ByteCount(ItemsOf(Zip(files))) <= TotalSize(files)
  {
    if files != [] {
      hide TotalSize, ItemsOf, Zip, Items, NoDirectoryNames, NamesDirectory, ByteCount, Utf8;
      var front, last := files[..|files| - 1], files[|files| - 1];
      ZipStep(files);
      ItemsOfZip(front);
      ByteCountStep(ItemsOf(Zip(front)), Item(last.path, Utf8(last.content)));
      assert ItemsOf(Zip(front)) + [] == ItemsOf(Zip(front));
      TotalOfLast(files);
    }
  }

  lemma TotalOfLast(files: seq<File>)
    requires files != []
    ensures TotalSize(files) == TotalSize(files[..|files| - 1]) + FileSize(files[|files| - 1])
    ensures Size(files[|files| - 1].content) <= FileSize(files[|files| - 1])
  {
  }

  /** Writing these files fails before it comes to a path that looks like a directory. */
  ghost predicate FailsEarly(c: Call, files: seq<File>, n: nat) {
    && n <= |files| && NoDirectoryNames(files[..n])
    && WriteAll(c.t, c.start, c.target, Items(files[..n]), c.links).result.Err?
  }

  lemma EarlyFailureIsShared(c: Call, files: seq<File>, n: nat)
    requires c.entries == Zip(files) && FailsEarly(c, files, n)
    ensures WritesAll(c) == WriteAll(c.t, c.start, c.target, Items(files), c.links)
  {
    hide WriteAll, Utf8, NoDirectoryNames;
    assert Zip(files)[..n] == Zip(files[..n]) && Items(files)[..n] == Items(files[..n]);
    ItemsOfZip(files[..n]);
    ItemsOfPrefix(c.entries, n);
    var items := ItemsOf(c.entries);
    assert items[..n] == Items(files[..n]);
    FailureStops(c.t, c.start, c.target, items, n, c.links);
    FailureStops(c.t, c.start, c.target, Items(files), n, c.links);
  }

  /**
    A bundle within budget, archived and unpacked under the standing limits,
    gives the tree and the paths that writing it directly gives, as long as no
    path looks like a directory or the writing fails before it comes to one; when
    one does and the direct writing succeeds it is lost, and the two differ.
  */
  lemma UnpackingIsWriting(c: Call, b: Bundle, w: Written, expanded: nat, direct: Written)
    requires WithinBudget(b) && c.entries == Zip(b.files)
    requires c.maxEntries == MAX_ARCHIVE_ENTRIES && c.maxBytes == MAX_ARCHIVE_BYTES && EndsAs(c, w, expanded)
    requires direct == WriteAll(c.t, c.start, c.target, Items(b.files), c.links)
    ensures NoDirectoryNames(b.files) || (exists n: nat :: FailsEarly(c, b.files, n)) ==> w == direct
    ensures !NoDirectoryNames(b.files) && direct.result.Ok? ==> w != direct
  {
    hide WriteAll;
    ItemsOfZip(b.files);
    assert Readable(c.entries);
    OnePathPerItem(c.t, c.start, c.target, Items(b.files), c.links);
    OnePathPerItem(c.t, c.start, c.target, ItemsOf(c.entries), c.links);
    if n: nat :| FailsEarly(c, b.files, n) { EarlyFailureIsShared(c, b.files, n); }
  }

  method BothWays(t: Tree, start: Location, links: nat, b: Bundle, target: seq<Comp>)
    returns (direct: Written, unpacked: Written)
    requires WithinBudget(b) && NoDirectoryNames(b.files)
    ensures unpacked == direct
  {
    hide WriteAll, EndsAs;
    var here := new Disk(t, start, links);
    var there := new Disk(t, start, links);
    var r := WriteBundle(here, b, target);
    var s, expanded := Unpack(there, Zip(b.files), target, MAX_ARCHIVE_ENTRIES, MAX_ARCHIVE_BYTES);
    direct, unpacked := Written(here.tree, r), Written(there.tree, s);
    UnpackingIsWriting(
      Call(t, start, target, links, Zip(b.files), MAX_ARCHIVE_ENTRIES, MAX_ARCHIVE_BYTES), b, unpacked, expanded, direct);
  }
}
