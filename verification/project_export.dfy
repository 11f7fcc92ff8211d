/**
  The files of one project export (`src/export.rs`): the folder walk, the path
  of each issue and page, and the export as a whole.
*/
module ProjectExport {
  import opened Common
  import opened ExportBudget
  import opened ExportFresh
  import opened ExportJson
  import opened ExportPaths
  import opened ExportTree
  import opened ExportWrite
  import opened FileTree
  import opened PathText
  import opened Utf8Text

  // ---- Folders ----

  type FolderId = int

  datatype Folder = Folder(name: string, parent: Option<FolderId>)

  type Folders = map<FolderId, Folder>

  /** The folders the walk passes, leaf first: it ends at the root, at a missing folder, or at one it has visited. */
  function Chain(folders: Folders, current: Option<FolderId>, visited: set<FolderId>): seq<FolderId>
    decreases folders.Keys - visited
  {
    if current == None || current.value in visited || current.value !in folders then []
    else [current.value] + Chain(folders, folders[current.value].parent, visited + {current.value})
  }

  /** No folder is passed twice, each after the first is the parent of the one before, and the end is an end. */
  lemma {:induction false} ChainVisitsOnce(folders: Folders, current: Option<FolderId>, visited: set<FolderId>)
    ensures var c := Chain(folders, current, visited);
            && (forall i :: 0 <= i < |c| ==> c[i] in folders && c[i] !in visited)
            && (forall i, j :: 0 <= i < j < |c| ==> c[i] != c[j])
            && (c != [] ==> current == Some(c[0]))
            && (forall i :: 0 < i < |c| ==> folders[c[i - 1]].parent == Some(c[i]))
            && var end := if c == [] then current else folders[c[|c| - 1]].parent;
               end == None || end.value !in folders || end.value in visited || end.value in c
    decreases folders.Keys - visited
  {
    if current != None && current.value !in visited && current.value in folders {
      var id := current.value;
      var rest := Chain(folders, folders[id].parent, visited + {id});
      ChainVisitsOnce(folders, folders[id].parent, visited + {id});
      var c := [id] + rest;
      forall i | 0 < i < |c| ensures c[i] in folders && c[i] !in visited && c[i] != id { assert c[i] == rest[i - 1]; }
      forall i | 0 < i < |c| ensures folders[c[i - 1]].parent == Some(c[i]) {
        if i > 1 { assert c[i] == rest[i - 1] && c[i - 1] == rest[i - 2]; }
      }
      if rest != [] { assert c[|c| - 1] == rest[|rest| - 1]; }
    }
  }

  function Reverse<T>(s: seq<T>): (r: seq<T>)
    ensures |r| == |s| && forall i :: 0 <= i < |s| ==> r[i] == s[|s| - 1 - i]
  {
    if s == [] then [] else Reverse(s[1..]) + [s[0]]
  }

  /** The slugs of a chain of folders. */
  function SlugsOf(folders: Folders, ids: seq<FolderId>): seq<string>
    requires forall i :: 0 <= i < |ids| ==> ids[i] in folders
  {
    seq(|ids|, i requires 0 <= i < |ids| => Slug(folders[ids[i]].name))
  }

  function FolderSlugs(folders: Folders, id: FolderId): seq<string> {
    ChainVisitsOnce(folders, Some(id), {});
    Reverse(SlugsOf(folders, Chain(folders, Some(id), {})))
  }

  lemma SlugsSnoc(folders: Folders, ids: seq<FolderId>, id: FolderId)
    requires id in folders && forall i :: 0 <= i < |ids| ==> ids[i] in folders
    ensures SlugsOf(folders, ids + [id]) == SlugsOf(folders, ids) + [Slug(folders[id].name)]
  {
  }

  lemma SlugsOfThePassed(folders: Folders, id: FolderId, passed: seq<FolderId>)
    requires passed == Chain(folders, Some(id), {}) && forall i :: 0 <= i < |passed| ==> passed[i] in folders
    ensures FolderSlugs(folders, id) == Reverse(SlugsOf(folders, passed))
  {
  }

  lemma ChainEnds(folders: Folders, current: Option<FolderId>, visited: set<FolderId>)
    requires current == None || current.value in visited || current.value !in folders
    ensures Chain(folders, current, visited) == []
  {
  }

  lemma ChainStep(folders: Folders, id: FolderId, visited: set<FolderId>)
    requires id in folders && id !in visited
    ensures Chain(folders, Some(id), visited) == [id] + Chain(folders, folders[id].parent, visited + {id})
  {
  }

  /** One more folder passed. */
  lemma Passes(folders: Folders, first: FolderId, passed: seq<FolderId>, id: FolderId, visited: set<FolderId>)
    requires id in folders && id !in visited && forall i :: 0 <= i < |passed| ==> passed[i] in folders
    requires passed + Chain(folders, Some(id), visited) == Chain(folders, Some(first), {})
    ensures (passed + [id]) + Chain(folders, folders[id].parent, visited + {id}) == Chain(folders, Some(first), {})
    ensures SlugsOf(folders, passed + [id]) == SlugsOf(folders, passed) + [Slug(folders[id].name)]
  {
    hide Slug, Chain, SlugsOf;
    ChainStep(folders, id, visited);
    SlugsSnoc(folders, passed, id);
    assert passed + ([id] + Chain(folders, folders[id].parent, visited + {id})) ==
           (passed + [id]) + Chain(folders, folders[id].parent, visited + {id});
  }

  /** `folder_segments`: halts on any parent map. */
  method FolderSegments(folders: Folders, folderId: FolderId) returns (segments: seq<string>)
    ensures segments == FolderSlugs(folders, folderId)
  {
    segments := [];
    var visited: set<FolderId> := {};
    var current := Some(folderId);
    ghost var passed: seq<FolderId> := [];
    assert SlugsOf(folders, []) == [];
    hide Slug, Chain, SlugsOf, FolderSlugs, Reverse;
    while current != None
      invariant forall i :: 0 <= i < |passed| ==> passed[i] in folders
      invariant segments == SlugsOf(folders, passed)
      invariant passed + Chain(folders, current, visited) == Chain(folders, Some(folderId), {})
      decreases folders.Keys - visited, current != None
    {
      var id := current.value;
      if id in visited { break; }
      if id !in folders { break; }
      Passes(folders, folderId, passed, id, visited);
      visited := visited + {id};
      var slug := Slugify(folders[id].name);
      segments := segments + [slug];
      passed := passed + [id];
      current := folders[id].parent;
    }
    ChainEnds(folders, current, visited);
    assert passed + [] == passed;
    SlugsOfThePassed(folders, folderId, passed);
    segments := Reverse(segments);
  }

  /** Every parent that exists ranks below its child: there is no cycle. */
  ghost predicate Ranked(folders: Folders, rank: map<FolderId, nat>) {
    && (forall id :: id in folders ==> id in rank)
    && (forall id :: id in folders && folders[id].parent != None && folders[id].parent.value in folders ==>
          rank[folders[id].parent.value] < rank[id])
  }

  /** The path from the root to a folder, by recursion on its parent. */
  ghost function RootToLeaf(folders: Folders, rank: map<FolderId, nat>, id: FolderId): seq<string>
    requires Ranked(folders, rank) && id in folders
    decreases rank[id]
  {
    var parent := folders[id].parent;
    (if parent != None && parent.value in folders then RootToLeaf(folders, rank, parent.value) else []) +
    [Slug(folders[id].name)]
  }

  lemma {:induction false} ChainIsRootToLeaf(
      folders: Folders, rank: map<FolderId, nat>, id: FolderId, visited: set<FolderId>)
    requires Ranked(folders, rank) && id in folders
    requires forall v :: v in visited && v in folders ==> rank[v] > rank[id]
    ensures forall i :: 0 <= i < |Chain(folders, Some(id), visited)| ==> Chain(folders, Some(id), visited)[i] in folders
    ensures Reverse(SlugsOf(folders, Chain(folders, Some(id), visited))) == RootToLeaf(folders, rank, id)
    decreases rank[id]
  {
    ChainVisitsOnce(folders, Some(id), visited);
    var parent := folders[id].parent;
    var c := Chain(folders, Some(id), visited);
    var rest := Chain(folders, parent, visited + {id});
    assert c == [id] + rest && c[1..] == rest;
    assert SlugsOf(folders, c)[1..] == SlugsOf(folders, rest);
    if parent != None && parent.value in folders {
      ChainIsRootToLeaf(folders, rank, parent.value, visited + {id});
    } else {
      assert rest == [] && SlugsOf(folders, rest) == [] && Reverse<string>([]) == [];
    }
  }

  /** Without a cycle the walk gives the path from the root to the folder. */
  lemma AcyclicFoldersGiveRootToLeaf(folders: Folders, rank: map<FolderId, nat>, id: FolderId)
    requires Ranked(folders, rank) && id in folders
    ensures FolderSlugs(folders, id) == RootToLeaf(folders, rank, id)
  {
    ChainIsRootToLeaf(folders, rank, id, {});
  }

  // ---- Paths ----

  datatype Doc =
    | Issue(sequence: nat, title: string, text: string)
    | Page(sequence: nat, title: string, folder: Option<FolderId>, text: string)

  /** Issues and pages with their rendered texts, in the order they are exported. */
  datatype Project = Project(identifier: string, folders: Folders, docs: seq<Doc>)

  predicate Capital(c: char) { 'A' <= c <= 'Z' }

  /** `validate_identifier` (`src/db/queries/projects.rs`) */
  predicate ValidIdentifier(s: string) {
    && 0 < |s| <= 5 && Capital(s[0]) && s != "DOC"
    && forall i :: 0 <= i < |s| ==> Capital(s[i]) || '0' <= s[i] <= '9'
  }

  /** Sequence numbers are unique within a project, for issues and for pages. */
  predicate ValidProject(p: Project) {
    && ValidIdentifier(p.identifier)
    && forall i, j :: 0 <= i < j < |p.docs| && p.docs[i].Issue? == p.docs[j].Issue? ==>
         p.docs[i].sequence != p.docs[j].sequence
  }

  /** Projects with any identifier the server accepts, and numbers that differ among issues and among pages. */
  lemma ProjectsAreValid(p: Project)
    requires 1 <= |p.identifier| <= 5 && p.identifier != "DOC" && 'A' <= p.identifier[0] <= 'Z'
    requires forall i :: 0 <= i < |p.identifier| ==> 'A' <= p.identifier[i] <= 'Z' || '0' <= p.identifier[i] <= '9'
    requires forall i, j :: 0 <= i < |p.docs| && 0 <= j < |p.docs| && i != j && p.docs[i].Issue? && p.docs[j].Issue? ==>
               p.docs[i].sequence != p.docs[j].sequence
    requires forall i, j :: 0 <= i < |p.docs| && 0 <= j < |p.docs| && i != j && p.docs[i].Page? && p.docs[j].Page? ==>
               p.docs[i].sequence != p.docs[j].sequence
    ensures ValidProject(p)
  {
  }

  /** The identifier as other code prints it: `LIF-12`, or `LIF-DOC-12` for a page. */
  function DocIdentifier(root: string, d: Doc): string {
    match d
    case Issue(n, _, _) => root + "-" + Decimal(n)
    case Page(n, _, _, _) => root + "-DOC-" + Decimal(n)
  }

  function FileName(root: string, d: Doc): string { Slug(DocIdentifier(root, d) + "-" + d.title) + ".md" }

  function Directories(root: string, d: Doc, folders: Folders): seq<string> {
    match d
    case Issue(_, _, _) => [root, "issues"]
    case Page(_, _, None, _) => [root, "pages"]
    case Page(_, _, Some(folder), _) => [root, "pages"] + FolderSlugs(folders, folder)
  }

  function DocPath(root: string, d: Doc, folders: Folders): string {
    Join(Directories(root, d, folders) + [FileName(root, d)], '/')
  }

  function ProjectFiles(p: Project): seq<ExportBudget.File> {
    seq(|p.docs|, i requires 0 <= i < |p.docs| =>
      ExportBudget.File(DocPath(p.identifier, p.docs[i], p.folders), p.docs[i].text))
  }

  /** `build_page_path`, and its counterpart for issues. */
  method BuildPath(root: string, d: Doc, folders: Folders) returns (path: string)
    ensures path == DocPath(root, d, folders)
  {
    hide FolderSlugs, Slug, Decimal;
    var name := Slugify(DocIdentifier(root, d) + "-" + d.title);
    match d
    case Issue(_, _, _) =>
      path := Join([root, "issues", name + ".md"], '/');
      assert [root, "issues"] + [name + ".md"] == [root, "issues", name + ".md"];
    case Page(_, _, folder, _) =>
      var parts := [root, "pages"];
      if folder != None {
        var segments := FolderSegments(folders, folder.value);
        parts := parts + segments;
      }
      path := Join(parts + [name + ".md"], '/');
  }

  /** `export_project_snapshot`: all the project's files, or none if they pass the budget. */
  method ExportProject(p: Project) returns (r: Result<Bundle, BudgetError>)
    ensures r.Ok? <==> WithinBudget(Bundle(p.identifier, ProjectFiles(p)))
    ensures r.Ok? ==> r.value == Bundle(p.identifier, ProjectFiles(p))
    ensures r.Ok? ==> |r.value.files| == |p.docs| && forall i :: 0 <= i < |p.docs| ==>
              && r.value.files[i].path == DocPath(p.identifier, p.docs[i], p.folders)
              && r.value.files[i].content == p.docs[i].text
  {
    hide WithinBudget, DocPath;
    var files := ProjectFiles(p);
    var made := NewBuilder(p.identifier);
    if made.Err? {
      if WithinBudget(Bundle(p.identifier, files)) { BudgetOfPrefix(Bundle(p.identifier, files), 0); }
      assert files[..0] == [];
      return Err(made.error);
    }
    var builder := made.value;
    for i := 0 to |p.docs|
      invariant fresh(builder) && fresh(builder.budget) && builder.Valid()
      invariant builder.root == p.identifier && builder.files == files[..i]
    {
      var path := BuildPath(p.identifier, p.docs[i], p.folders);
      var pushed := builder.Push(path, p.docs[i].text);
      assert files[..i + 1] == files[..i] + [files[i]];
      if pushed.Err? {
        if WithinBudget(Bundle(p.identifier, files)) { BudgetOfPrefix(Bundle(p.identifier, files), i + 1); }
        return Err(pushed.error);
      }
    }
    assert files[..|p.docs|] == files;
    var bundle := builder.Finish();
    return Ok(bundle);
  }

  // ---- Separate paths ----

  /** A component no file of an export is named after. */
  predicate Dotless(s: string) { '.' !in s && '/' !in s }

  lemma SlugIsDotless(s: string)
    ensures Dotless(Slug(s)) && IsAscii(Slug(s))
  {
    SlugChars(Words(s));
  }

  lemma {:induction false} SlugChars(words: seq<string>)
    requires forall i :: 0 <= i < |words| ==> IsWord(words[i])
    ensures forall i :: 0 <= i < |Dashed(words)| ==> LowerAlnum(Dashed(words)[i]) || Dashed(words)[i] == '-'
  {
    if words != [] {
      var front, last := words[..|words| - 1], words[|words| - 1];
      SlugChars(front);
      assert IsWord(last) && words == front + [last];
      DashedSnoc(front, last);
    }
  }

  /** The folder name behind one segment. */
  ghost function SluggedName(folders: Folders, id: FolderId, i: nat): (name: string)
    requires i < |FolderSlugs(folders, id)|
    ensures FolderSlugs(folders, id)[i] == Slug(name)
  {
    ChainVisitsOnce(folders, Some(id), {});
    var ids := Chain(folders, Some(id), {});
    folders[ids[|ids| - 1 - i]].name
  }

  lemma DirectoriesAreDotless(root: string, d: Doc, folders: Folders)
    requires ValidIdentifier(root)
    ensures forall i :: 0 <= i < |Directories(root, d, folders)| ==> Dotless(Directories(root, d, folders)[i])
  {
    hide FolderSlugs;
    if d.Page? && d.folder.Some? {
      var slugs := FolderSlugs(folders, d.folder.value);
      forall i | 0 <= i < |slugs| ensures Dotless(slugs[i]) { SlugIsDotless(SluggedName(folders, d.folder.value, i)); }
    }
  }

  /** The directories a path really names: an empty slug names none. */
  function NamedDirectories(root: string, d: Doc, folders: Folders): seq<string> { Normal(Directories(root, d, folders)) }

  function DocComponents(root: string, d: Doc, folders: Folders): seq<string> {
    NamedDirectories(root, d, folders) + [FileName(root, d)]
  }

  lemma {:induction false} NormalOfSnoc(parts: seq<string>, name: string)
    requires name != "" && name != "."
    ensures Normal(parts + [name]) == Normal(parts) + [name]
  {
  }

  lemma FileNameHasADot(root: string, d: Doc)
    ensures '.' in FileName(root, d) && '/' !in FileName(root, d) && |FileName(root, d)| >= 3
  {
    var slug := Slug(DocIdentifier(root, d) + "-" + d.title);
    SlugIsDotless(DocIdentifier(root, d) + "-" + d.title);
    assert FileName(root, d)[|slug|] == '.';
  }

  lemma PathHasTheseComponents(root: string, d: Doc, folders: Folders)
    requires ValidIdentifier(root)
    ensures Components(DocPath(root, d, folders)) == Ok(DocComponents(root, d, folders))
  {
    hide FolderSlugs, FileName;
    var dirs, name := Directories(root, d, folders), FileName(root, d);
    var parts := dirs + [name];
    DirectoriesAreDotless(root, d, folders);
    FileNameHasADot(root, d);
    assert forall i :: 0 <= i < |parts| ==> '/' !in parts[i];
    SplitOfJoin(parts, '/');
    NormalOfSnoc(dirs, name);
    JoinStart(parts, '/');
    assert parts[0] == root;
    assert ".." !in parts by { assert ".."[0] == '.' && '.' in ".."; }
  }

  lemma WordThen(w: string, rest: string)
    requires w != [] && forall i :: 0 <= i < |w| ==> Alnum(w[i])
    ensures Words(w + "-" + rest) == [LowerCase(w)] + Words(rest)
  {
    OneWord(w);
    WordsAround(w, '-', rest);
  }

  lemma DecimalWord(n: nat)
    ensures Words(Decimal(n)) == [Decimal(n)]
  {
    OneWord(Decimal(n));
    assert LowerCase(Decimal(n)) == Decimal(n);
  }

  lemma IdentifierWords(root: string, d: Doc)
    requires ValidIdentifier(root)
    ensures Words(DocIdentifier(root, d)) ==
            if d.Issue? then [LowerCase(root), Decimal(d.sequence)] else [LowerCase(root), "doc", Decimal(d.sequence)]
  {
    hide Words, Decimal, LowerCase;
    var n := Decimal(d.sequence);
    DecimalWord(d.sequence);
    if d.Issue? {
      WordThen(root, n);
    } else {
      WordThen(root, "DOC" + "-" + n);
      WordThen("DOC", n);
      DocInLowerCase();
      assert root + "-DOC-" + n == root + "-" + ("DOC" + "-" + n);
    }
  }

  lemma DocInLowerCase()
    ensures LowerCase("DOC") == "doc"
  {
  }

  /** The file name tells the sequence number: it is the second or third word. */
  lemma FileNameWords(root: string, d: Doc)
    requires ValidIdentifier(root)
    ensures var words := Words(DocIdentifier(root, d) + "-" + d.title);
            words == (if d.Issue? then [LowerCase(root), Decimal(d.sequence)] else [LowerCase(root), "doc", Decimal(d.sequence)])
                     + Words(d.title)
  {
    hide Scan, Decimal, DocIdentifier, ValidIdentifier;
    IdentifierWords(root, d);
    WordsAround(DocIdentifier(root, d), '-', d.title);
  }

  lemma FileNamesDiffer(root: string, d: Doc, e: Doc)
    requires ValidIdentifier(root) && d.Issue? == e.Issue? && FileName(root, d) == FileName(root, e)
    ensures d.sequence == e.sequence
  {
    var s, t := DocIdentifier(root, d) + "-" + d.title, DocIdentifier(root, e) + "-" + e.title;
    assert Slug(s) == FileName(root, d)[..|FileName(root, d)| - 3] == Slug(t);
    SlugTellsWords(s, t);
    FileNameWords(root, d);
    FileNameWords(root, e);
    var k := if d.Issue? then 1 else 2;
    assert Words(s)[k] == Decimal(d.sequence) && Words(t)[k] == Decimal(e.sequence);
    DecimalIsInjective(d.sequence, e.sequence);
  }

  lemma DirectoriesStart(root: string, d: Doc, folders: Folders)
    requires ValidIdentifier(root)
    ensures var dirs := Directories(root, d, folders);
            && |dirs| >= 2 && dirs == [root, dirs[1]] + dirs[2..] && dirs[1] == (if d.Issue? then "issues" else "pages")
            && root != "" && root != "."
  {
  }

  lemma KindIsSecond(root: string, d: Doc, folders: Folders)
    requires ValidIdentifier(root)
    ensures var q := DocComponents(root, d, folders);
            |q| >= 3 && q[1] == (if d.Issue? then "issues" else "pages")
            && q[|q| - 1] == FileName(root, d) && forall i :: 0 <= i < |q| - 1 ==> Dotless(q[i])
  {
    hide Normal, FolderSlugs, FileName, ValidIdentifier;
    var dirs := Directories(root, d, folders);
    DirectoriesAreDotless(root, d, folders);
    DirectoriesStart(root, d, folders);
    NormalKeeps(dirs);
    NormalStart(root, dirs[1], dirs[2..]);
    var named := Normal(dirs);
    forall i | 0 <= i < |named| ensures Dotless(named[i]) {
      var k :| 0 <= k < |dirs| && dirs[k] == named[i];
    }
  }

  lemma {:induction false} NormalStart(a: string, b: string, rest: seq<string>)
    requires a != "" && a != "." && b != "" && b != "."
    ensures |Normal([a, b] + rest)| >= 2 && Normal([a, b] + rest)[0] == a && Normal([a, b] + rest)[1] == b
  {
    var parts := [a, b] + rest;
    if rest == [] {
      assert parts == [a, b] && [a, b][..1] == [a] && [a][..0] == [];
      assert Normal([a]) == [a] && Normal([a, b]) == [a, b];
    } else {
      NormalStart(a, b, rest[..|rest| - 1]);
      assert parts[..|parts| - 1] == [a, b] + rest[..|rest| - 1];
    }
  }

  /** No path of an export equals another or leads through another. */
  lemma PathsDoNotMeet(p: Project, i: nat, j: nat)
    requires ValidProject(p) && i < |p.docs| && j < |p.docs| && i != j
    ensures !(DocComponents(p.identifier, p.docs[i], p.folders) <= DocComponents(p.identifier, p.docs[j], p.folders))
  {
    hide DocComponents, FileName;
    var d, e := p.docs[i], p.docs[j];
    var x, y := DocComponents(p.identifier, d, p.folders), DocComponents(p.identifier, e, p.folders);
    KindIsSecond(p.identifier, d, p.folders);
    KindIsSecond(p.identifier, e, p.folders);
    FileNameHasADot(p.identifier, d);
    if x <= y {
      assert x[1] == y[1] && x[|x| - 1] == y[|x| - 1];
      assert "issues"[0] != "pages"[0];
      if FileName(p.identifier, d) == FileName(p.identifier, e) { FileNamesDiffer(p.identifier, d, e); }
    }
  }

  function ProjectPaths(p: Project): seq<seq<string>> {
    seq(|p.docs|, i requires 0 <= i < |p.docs| => DocComponents(p.identifier, p.docs[i], p.folders))
  }

  lemma ProjectPathsAreSeparate(p: Project)
    requires ValidProject(p)
    ensures Separate(ProjectPaths(p))
  {
    hide DocComponents, ValidProject;
    forall i, j | 0 <= i < |p.docs| && 0 <= j < |p.docs| && i != j
      ensures !(ProjectPaths(p)[i] <= ProjectPaths(p)[j])
    {
      PathsDoNotMeet(p, i, j);
    }
  }

  // ---- Which names fit ----

  lemma {:induction false} DashedConcat(xs: seq<string>, ys: seq<string>)
    requires xs != [] && ys != []
    ensures |Dashed(xs + ys)| == |Dashed(xs)| + 1 + |Dashed(ys)|
  {
    var front, last := ys[..|ys| - 1], ys[|ys| - 1];
    assert ys == front + [last] && xs + ys == (xs + front) + [last];
    DashedSnoc(xs + front, last);
    DashedSnoc(front, last);
    if front == [] { assert xs + front == xs; } else { DashedConcat(xs, front); }
  }

  lemma OneDashed(w: string)
    ensures Dashed([w]) == w
  {
    DashedSnoc([], w);
    assert [] + [w] == [w];
  }

  lemma IdentifierLength(root: string, d: Doc)
    requires ValidIdentifier(root)
    ensures Words(DocIdentifier(root, d)) != []
    ensures |Slug(DocIdentifier(root, d))| == |DocIdentifier(root, d)|
  {
    hide Words, Decimal, Dashed;
    var w, n := LowerCase(root), Decimal(d.sequence);
    IdentifierWords(root, d);
    OneDashed(w);
    OneDashed(n);
    if d.Issue? {
      assert [w] + [n] == [w, n];
      DashedConcat([w], [n]);
    } else {
      OneDashed("doc");
      assert [w] + ["doc"] == [w, "doc"] && [w, "doc"] + [n] == [w, "doc", n];
      DashedConcat([w], ["doc"]);
      DashedConcat([w, "doc"], [n]);
    }
  }

  /** The length of a file name: its identifier, the slug of its title if there is any, and `.md`. */
  function FileNameLength(root: string, d: Doc): nat {
    |DocIdentifier(root, d)| + (if Slug(d.title) == "" then 0 else 1 + |Slug(d.title)|) + 3
  }

  lemma FileNameSize(root: string, d: Doc)
    requires ValidIdentifier(root)
    ensures Size(FileName(root, d)) == FileNameLength(root, d)
  {
    hide Scan, Dashed, DocIdentifier, ValidIdentifier;
    var identifier := DocIdentifier(root, d);
    var s := identifier + "-" + d.title;
    WordsAround(identifier, '-', d.title);
    assert Words(s) == Words(identifier) + Words(d.title);
    IdentifierLength(root, d);
    SlugSplits(d.title);
    if Words(d.title) == [] {
      assert Words(s) == Words(identifier);
    } else {
      DashedConcat(Words(identifier), Words(d.title));
    }
    SlugIsDotless(s);
    SizeOfAscii(Slug(s));
    SizeOfAscii(".md");
    SizeOfConcat(Slug(s), ".md");
  }

  lemma {:induction false} NormalNamesFit(parts: seq<string>)
    ensures NamesFit(Normal(parts)) <==> NamesFit(parts)
  {
    if parts != [] {
      var front, last := parts[..|parts| - 1], parts[|parts| - 1];
      NormalNamesFit(front);
      ShortNamesFit();
      LastNameOf(front, last);
      LastNameOf(Normal(front), last);
      assert parts == front + [last];
      assert Normal(parts) == if last == "" || last == "." then Normal(front) else Normal(front) + [last];
    }
  }

  lemma LastNameOf(names: seq<string>, last: string)
    ensures NamesFit(names + [last]) <==> NamesFit(names) && Fits(last)
  {
    hide Fits;
    var all := names + [last];
    assert all[|names|] == last && forall i :: 0 <= i < |names| ==> all[i] == names[i];
  }

  lemma ShortNamesFit()
    ensures Fits("") && Fits(".") && Fits("issues") && Fits("pages")
  {
    SizeOfAscii("");
    SizeOfAscii(".");
    SizeOfAscii("issues");
    SizeOfAscii("pages");
  }

  /** No title and no folder name on the way to the document is too long. */
  ghost predicate ShortNames(root: string, d: Doc, folders: Folders) {
    && FileNameLength(root, d) <= NAME_MAX
    && (d.Page? && d.folder.Some? ==>
          var slugs := FolderSlugs(folders, d.folder.value); forall i :: 0 <= i < |slugs| ==> |slugs[i]| <= NAME_MAX)
  }

  lemma SlugSize(s: string)
    ensures Size(Slug(s)) == |Slug(s)|
  {
    SlugIsDotless(s);
    SizeOfAscii(Slug(s));
  }

  lemma FolderNamesFit(folders: Folders, id: FolderId)
    ensures var slugs := FolderSlugs(folders, id);
            NamesFit(slugs) <==> forall i :: 0 <= i < |slugs| ==> |slugs[i]| <= NAME_MAX
  {
    hide FolderSlugs, Slug, Size;
    var slugs := FolderSlugs(folders, id);
    forall i | 0 <= i < |slugs| ensures Size(slugs[i]) == |slugs[i]| { SlugSize(SluggedName(folders, id, i)); }
  }

  lemma DirectoriesFit(root: string, d: Doc, folders: Folders)
    requires ValidIdentifier(root)
    ensures NamesFit(Directories(root, d, folders)) <==>
              d.Page? && d.folder.Some? ==> NamesFit(FolderSlugs(folders, d.folder.value))
  {
    hide Fits, FolderSlugs;
    ShortNamesFit();
    assert Fits(root) by { RootFits(root); }
    if d.Page? && d.folder.Some? {
      var slugs := FolderSlugs(folders, d.folder.value);
      var dirs := Directories(root, d, folders);
      assert forall i :: 0 <= i < |slugs| ==> dirs[2 + i] == slugs[i];
    }
  }

  lemma RootFits(root: string)
    requires ValidIdentifier(root)
    ensures Fits(root)
  {
    SizeOfAscii(root);
  }

  lemma DocNamesFit(root: string, d: Doc, folders: Folders)
    requires ValidIdentifier(root)
    ensures NamesFit(DocComponents(root, d, folders)) <==> ShortNames(root, d, folders)
  {
    hide NamesFit, ValidIdentifier, FileName, Directories, FolderSlugs, Size, FileNameLength, Normal;
    LastNameOf(NamedDirectories(root, d, folders), FileName(root, d));
    NormalNamesFit(Directories(root, d, folders));
    DirectoriesFit(root, d, folders);
    FileNameSize(root, d);
    if d.Page? && d.folder.Some? { FolderNamesFit(folders, d.folder.value); }
  }

  ghost predicate AllShort(p: Project) {
    forall i :: 0 <= i < |p.docs| ==> ShortNames(p.identifier, p.docs[i], p.folders)
  }

  lemma ProjectNamesFit(p: Project)
    requires ValidProject(p)
    ensures AllNamesFit(ProjectPaths(p)) <==> AllShort(p)
  {
    hide NamesFit, DocComponents, ShortNames, ValidIdentifier;
    forall i | 0 <= i < |p.docs|
      ensures NamesFit(ProjectPaths(p)[i]) <==> ShortNames(p.identifier, p.docs[i], p.folders)
    {
      DocNamesFit(p.identifier, p.docs[i], p.folders);
    }
  }

  /** Under the path of each issue and page lies a file with that one's text. */
  ghost predicate EachHasItsText(p: Project, root: Location, u: Tree) {
    forall i :: 0 <= i < |p.docs| ==>
      var l := root + DocComponents(p.identifier, p.docs[i], p.folders);
      l in u && u[l] == FileTree.File(Utf8(p.docs[i].text))
  }

  lemma TextsAreOwn(p: Project, t: Tree, root: Location, u: Tree)
    requires OneFileEach(t, root, ProjectPaths(p), Items(ProjectFiles(p)), u)
    ensures EachHasItsText(p, root, u)
  {
    hide DocComponents, DocPath, Utf8;
    forall i | 0 <= i < |p.docs|
      ensures var l := root + DocComponents(p.identifier, p.docs[i], p.folders);
              l in u && u[l] == FileTree.File(Utf8(p.docs[i].text))
    {
      assert ProjectPaths(p)[i] == DocComponents(p.identifier, p.docs[i], p.folders);
      assert Items(ProjectFiles(p))[i].content == Utf8(p.docs[i].text);
    }
  }

  /**
    A project exported into an empty directory: it succeeds exactly when no file
    name and no folder name is too long, and what is there afterwards is then
    exactly one file per issue and page, with its own text, and the directories
    on the way.
  */
  lemma ExportIntoEmptyDirectory(p: Project, t: Tree, start: Location, target: seq<Comp>, links: nat)
    requires ValidProject(p) && WellFormed(t) && IsDir(t, start) && ResolvesToDir(t, start, target, links)
    requires EmptyBelow(t, Root(t, start, target, links).value.at)
    ensures var w := WriteAll(t, start, target, Items(ProjectFiles(p)), links);
            && (w.result.Ok? <==> AllShort(p))
            && (w.result.Ok? ==>
                  && w.result == Ok(Paths(target, ProjectPaths(p)))
                  && OneFileEach(t, Root(t, start, target, links).value.at, ProjectPaths(p), Items(ProjectFiles(p)), w.tree)
                  && EachHasItsText(p, Root(t, start, target, links).value.at, w.tree))
  {
    hide DocComponents, DocPath, WellFormed, Walk, EmptyBelow, AllShort, AllNamesFit, OneFileEach, EachHasItsText;
    forall i | 0 <= i < |p.docs| ensures Components(Items(ProjectFiles(p))[i].name) == Ok(ProjectPaths(p)[i]) {
      PathHasTheseComponents(p.identifier, p.docs[i], p.folders);
    }
    ProjectPathsAreSeparate(p);
    ProjectNamesFit(p);
    FreshExport(t, start, target, Items(ProjectFiles(p)), ProjectPaths(p), links);
    var w := WriteAll(t, start, target, Items(ProjectFiles(p)), links);
    if w.result.Ok? { TextsAreOwn(p, t, Root(t, start, target, links).value.at, w.tree); }
  }

  function Long(n: nat): (title: string)
    ensures |title| == n && forall i :: 0 <= i < n ==> title[i] == 'a'
  {
    seq(n, _ => 'a')
  }

  /** One issue with a title of 300 letters: into no empty directory can the project be exported. */
  lemma OverlongTitle(t: Tree, start: Location, target: seq<Comp>, links: nat) returns (p: Project)
    requires WellFormed(t) && IsDir(t, start) && ResolvesToDir(t, start, target, links)
    requires EmptyBelow(t, Root(t, start, target, links).value.at)
    ensures ValidProject(p) && |p.docs| == 1 && |p.docs[0].title| == 300
    ensures WriteAll(t, start, target, Items(ProjectFiles(p)), links).result.Err?
  {
    hide WellFormed, Walk, EmptyBelow, WriteAll;
    p := Project("A", map[], [Issue(1, Long(300), "")]);
    ExportIntoEmptyDirectory(p, t, start, target, links);
    OneLongWord(300);
    assert !ShortNames(p.identifier, p.docs[0], p.folders);
  }

  lemma OneLongWord(n: nat)
    requires n > 0
    ensures |Slug(Long(n))| == n
  {
    OneWord(Long(n));
    OneDashed(LowerCase(Long(n)));
  }

  // ---- The exported paths need no escaping ----

  predicate AllPlain(s: string) { forall i :: 0 <= i < |s| ==> Plain(s[i]) }

  lemma {:induction false} PlainTextIsPlainBytes(s: string)
    requires AllPlain(s)
    ensures PlainBytes(s) >= |s|
  {
    if s != [] { PlainTextIsPlainBytes(s[..|s| - 1]); }
  }

  lemma {:induction false} JoinedText(parts: seq<string>, sep: char)
    requires parts != [] && Plain(sep) && forall i :: 0 <= i < |parts| ==> AllPlain(parts[i])
    ensures var s := Join(parts, sep);
            && AllPlain(s) && |s| >= |parts| - 1 + |parts[|parts| - 1]|
            && (parts[|parts| - 1] != "" ==> s[|s| - 1] == parts[|parts| - 1][|parts[|parts| - 1]| - 1])
  {
    if |parts| > 1 { JoinedText(parts[..|parts| - 1], sep); }
  }

  lemma SlugIsPlain(s: string)
    ensures AllPlain(Slug(s))
  {
    SlugChars(Words(s));
  }

  lemma DirectoriesArePlain(root: string, d: Doc, folders: Folders)
    requires ValidIdentifier(root)
    ensures forall i :: 0 <= i < |Directories(root, d, folders)| ==> AllPlain(Directories(root, d, folders)[i])
  {
    hide Slug, FolderSlugs;
    if d.Page? && d.folder.Some? {
      var slugs := FolderSlugs(folders, d.folder.value);
      forall i | 0 <= i < |slugs| ensures AllPlain(slugs[i]) { SlugIsPlain(SluggedName(folders, d.folder.value, i)); }
    }
  }

  lemma PathIsPlain(root: string, d: Doc, folders: Folders)
    requires ValidIdentifier(root)
    ensures PlainBytes(DocPath(root, d, folders)) >= 5 && !NamesDirectory(DocPath(root, d, folders))
  {
    hide Slug, FolderSlugs, Join, PlainBytes, AllPlain, Directories;
    var name := FileName(root, d);
    var parts := Directories(root, d, folders) + [name];
    DirectoriesArePlain(root, d, folders);
    DirectoriesStart(root, d, folders);
    FileNameIsPlain(root, d);
    JoinedText(parts, '/');
    PlainTextIsPlainBytes(Join(parts, '/'));
  }

  lemma FileNameIsPlain(root: string, d: Doc)
    ensures AllPlain(FileName(root, d)) && |FileName(root, d)| >= 3 && FileName(root, d)[|FileName(root, d)| - 1] == 'd'
  {
    SlugIsPlain(DocIdentifier(root, d) + "-" + d.title);
  }

  /**
    Any project export within its budget also fits the JSON limit, and unpacking
    its archive gives what writing it directly gives.
  */
  lemma ExportsInEveryForm(p: Project, c: Call, unpacked: Written, expanded: nat)
    requires ValidProject(p) && WithinBudget(Bundle(p.identifier, ProjectFiles(p)))
    requires c.entries == Zip(ProjectFiles(p)) && EndsAs(c, unpacked, expanded)
    requires c.maxEntries == MAX_ARCHIVE_ENTRIES && c.maxBytes == MAX_ARCHIVE_BYTES
    ensures Size(Encode(Bundle(p.identifier, ProjectFiles(p)))) <= MAX_EXPORT_JSON_BYTES
    ensures unpacked == WriteAll(c.t, c.start, c.target, Items(ProjectFiles(p)), c.links)
  {
    hide Encode, DocPath, WithinBudget, WriteAll, EndsAs;
    var files := ProjectFiles(p);
    forall i | 0 <= i < |files| ensures PlainBytes(files[i].path) >= 5 && !NamesDirectory(files[i].path) {
      PathIsPlain(p.identifier, p.docs[i], p.folders);
    }
    JsonFitsWhereZipDoes(Bundle(p.identifier, files));
    UnpackingIsWriting(c, Bundle(p.identifier, files), unpacked, expanded,
                       WriteAll(c.t, c.start, c.target, Items(files), c.links));
  }
}
