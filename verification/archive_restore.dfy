/**
  What an archive and its unarchive give back (`src/archived_projects.rs`):
  the portable file drops local accounts, the listing row keeps them aside, and
  the import is corrected from it. The import itself gives every row a new id
  and an imported attribution (`src/project_archive.rs`).
*/
module ArchiveRestore {
  import opened Accounts
  import opened Authz
  import opened Common

  type RowId = int

  /** The tables whose rows name a local account. */
  datatype Table = Comments | Attachments | AuditLog | StatusTransitions

  /** History keeps the account id without a foreign key, and the transport of the action. */
  predicate History(t: Table) { t == AuditLog || t == StatusTransitions }

  datatype Key = Key(table: Table, id: RowId)

  /** The record a history row keeps of what it was where it came from. */
  datatype Source = Snapshot(id: RowId, transport: string, entity: int)

  /**
    The columns at stake: the account, the imported attribution that replaces
    it, and for history the imported source, the transport and the entity the
    row is about (0 for one that no longer exists).
  */
  datatype Row = Row(
    author: Option<UserId>, imported: Option<string>, source: Option<Source>, transport: string, entity: int)

  type Rows = map<Key, Row>

  datatype Project = Project(lead: Option<UserId>, isPublic: bool, members: map<UserId, Role>, rows: Rows)

  /** `Author`: the account, and for history the transport, behind one row. */
  datatype Author = Author(key: Key, user: Option<UserId>, transport: Option<string>)

  datatype Member = Member(user: UserId, role: Role)

  datatype Restore = Restore(lead: Option<UserId>, isPublic: bool, members: seq<Member>, authors: seq<Author>)

  /** Display names of the accounts of an instance. */
  type Names = map<UserId, string>

  // ---- Archiving ----

  const MARK := " (imported)"

  predicate Marked(text: string) { |text| >= |MARK| && text[|text| - |MARK|..] == MARK }

  /** The attribution an archive carries. */
  function Attribution(names: Names, row: Row): (text: string)
    ensures row.imported == None ==> Marked(text)
  {
    if row.imported.Some? then row.imported.value
    else if row.author.Some? && row.author.value in names then names[row.author.value] + MARK
    else "Unknown author" + MARK
  }

  /** The row as the file holds it: no account, an attribution. */
  function Exported(names: Names, row: Row): Row { row.(author := None, imported := Some(Attribution(names, row))) }

  /** A local account, or a local action, stands behind the row: it did not come in through an import. */
  predicate Local(k: Key, row: Row) {
    row.imported == None && if History(k.table) then row.source == None else row.author.Some?
  }

  function EntryOf(k: Key, row: Row): Author {
    Author(k, row.author, if History(k.table) then Some(row.transport) else None)
  }

  /** The rows to collect, table by table. */
  ghost predicate MadeHere(k: Key, row: Row) {
    && row.imported == None
    && match k.table
       case Comments => row.author.Some?
       case Attachments => row.author.Some?
       case AuditLog => row.source == None
       case StatusTransitions => row.source == None
  }

  /** An entry names its row and the account behind it, and for history the transport. */
  ghost predicate Describes(a: Author, k: Key, row: Row) {
    && a.key == k && a.user == row.author
    && a.transport == match k.table
                      case Comments => None
                      case Attachments => None
                      case AuditLog => Some(row.transport)
                      case StatusTransitions => Some(row.transport)
  }

  /** One entry for every row made here, and no other. */
  ghost predicate CollectsLocal(rows: Rows, authors: seq<Author>) {
    && (forall i, j :: 0 <= i < j < |authors| ==> authors[i].key != authors[j].key)
    && (forall i :: 0 <= i < |authors| ==>
          authors[i].key in rows && MadeHere(authors[i].key, rows[authors[i].key])
          && Describes(authors[i], authors[i].key, rows[authors[i].key]))
    && (forall k :: k in rows && MadeHere(k, rows[k]) ==> exists i :: 0 <= i < |authors| && authors[i].key == k)
  }

  lemma LocalIsMadeHere(k: Key, row: Row)
    ensures Local(k, row) <==> MadeHere(k, row)
    ensures forall a :: Describes(a, k, row) <==> a == EntryOf(k, row)
  {
  }

  ghost predicate ListsMembers(members: map<UserId, Role>, list: seq<Member>) {
    && (forall i :: 0 <= i < |list| ==> list[i].user in members && members[list[i].user] == list[i].role)
    && (forall u :: u in members ==> Member(u, members[u]) in list)
  }

  // ---- Importing ----

  /** The new ids an import gives: to rows, and to the entities that audit rows are about. */
  datatype Maps = Maps(rows: map<Key, RowId>, entities: map<int, int>) {
    function Target(k: Key): Key
      requires k in rows
    {
      Key(k.table, rows[k])
    }

    /** Ids are fresh, so no two rows of a table share one, and none is zero. */
    ghost predicate For(archived: Rows) {
      && (forall k :: k in archived <==> k in rows)
      && (forall j, k :: j in rows && k in rows && j != k ==> Target(j) != Target(k))
      && (forall e :: e in entities ==> entities[e] != 0)
    }
  }

  /** `imported_row`: the attribution is marked, history keeps or gains its source, a vanished entity becomes 0. */
  function Imported(maps: Maps, k: Key, row: Row): Row {
    var text := if row.imported.Some? then row.imported.value else "Unknown author";
    var source := if row.source.Some? then row.source.value else Snapshot(k.id, row.transport, row.entity);
    Row(None, Some(if Marked(text) then text else text + MARK),
        if History(k.table) then Some(source) else None,
        if History(k.table) then "imported" else row.transport,
        if row.entity in maps.entities then maps.entities[row.entity] else 0)
  }

  /** The correction `restore_authors` makes to one imported row. */
  function Corrected(users: set<UserId>, a: Author, row: Row): Row {
    if History(a.key.table) then
      Row(a.user, None, if a.key.table == AuditLog && row.entity == 0 then row.source else None,
          if a.transport.Some? then a.transport.value else "system", row.entity)
    else if a.user.Some? && a.user.value in users then row.(author := a.user, imported := None)
    else row
  }

  function CorrectOne(users: set<UserId>, maps: Maps, rows: Rows, a: Author): Rows {
    if a.key !in maps.rows || maps.Target(a.key) !in rows then rows
    else rows[maps.Target(a.key) := Corrected(users, a, rows[maps.Target(a.key)])]
  }

  function CorrectAll(users: set<UserId>, maps: Maps, rows: Rows, authors: seq<Author>): Rows {
    if authors == [] then rows
    else CorrectOne(users, maps, CorrectAll(users, maps, rows, authors[..|authors| - 1]), authors[|authors| - 1])
  }

  // ---- The tables of one project ----

  class Tables {
    var lead: Option<UserId>
    var isPublic: bool
    var members: map<UserId, Role>
    var rows: Rows

    constructor (p: Project)
      ensures Value() == p
    {
      lead, isPublic, members, rows := p.lead, p.isPublic, p.members, p.rows;
    }

    function Value(): Project
      reads this
    {
      Project(lead, isPublic, members, rows)
    }

    /** `collect_restore`: table by table, rows and members in any order. */
    method CollectRestore() returns (restore: Restore)
      ensures restore.lead == lead && restore.isPublic == isPublic
      ensures ListsMembers(members, restore.members) && CollectsLocal(rows, restore.authors)
    {
      var list: seq<Member> := [];
      var users := members.Keys;
      while users != {}
        invariant users <= members.Keys
        invariant forall i :: 0 <= i < |list| ==> list[i].user in members && members[list[i].user] == list[i].role
        invariant forall u :: u in members && u !in users ==> Member(u, members[u]) in list
        decreases users
      {
        var u := Pick(users);
        list := list + [Member(u, members[u])];
        users := users - {u};
      }
      var authors := CollectAuthors();
      restore := Restore(lead, isPublic, list, authors);
    }

    method CollectAuthors() returns (authors: seq<Author>)
      ensures CollectsLocal(rows, authors)
    {
      authors := [];
      var tables := [Comments, Attachments, AuditLog, StatusTransitions];
      ghost var seen: set<Key> := {};
      for i := 0 to |tables|
        invariant seen == set k | k in rows && k.table in tables[..i]
        invariant CollectsLocal(Within(rows, seen), authors)
      {
        var left := set k | k in rows && k.table == tables[i];
        ghost var all := left;
        ghost var before := seen;
        while left != {}
          invariant left <= all && seen == before + (all - left) && left !! seen
          invariant CollectsLocal(Within(rows, seen), authors)
          decreases left
        {
          var k := Pick(left);
          CollectOneMore(rows, seen, authors, k);
          if Local(k, rows[k]) { authors := authors + [EntryOf(k, rows[k])]; }
          seen := seen + {k};
          left := left - {k};
        }
        assert tables[..i + 1] == tables[..i] + [tables[i]];
      }
      assert tables[..|tables|] == tables;
      assert Within(rows, seen) == rows by {
        forall k | k in rows ensures k in seen { EveryTable(k.table); }
      }
    }

    /** The rows and the lead as the import leaves them: fresh ids, imported attributions, the admin as lead. */
    method Import(file: Rows, maps: Maps, admin: UserId)
      requires maps.For(file)
      modifies this
      ensures lead == Some(admin) && !isPublic && members == map[] && IsImport(rows, file, maps)
    {
      lead, isPublic, members, rows := None, false, map[], map[];
      var left := file.Keys;
      while left != {}
        invariant left <= file.Keys && !isPublic && members == map[]
        invariant forall k :: k in file && k !in left ==>
                    maps.Target(k) in rows && rows[maps.Target(k)] == Imported(maps, k, file[k])
        invariant forall t :: t in rows ==> exists k :: k in file && k !in left && t == maps.Target(k)
        decreases left
      {
        var k := Pick(left);
        rows := rows[maps.Target(k) := Imported(maps, k, file[k])];
        left := left - {k};
      }
      lead := Some(admin);
    }

    /** `restore_authors` */
    method RestoreAuthors(users: set<UserId>, maps: Maps, authors: seq<Author>)
      modifies this`rows
      ensures rows == CorrectAll(users, maps, old(rows), authors)
    {
      for i := 0 to |authors|
        invariant rows == CorrectAll(users, maps, old(rows), authors[..i])
      {
        assert authors[..i + 1][..i] == authors[..i];
        var a := authors[i];
        if a.key in maps.rows && maps.Target(a.key) in rows {
          rows := rows[maps.Target(a.key) := Corrected(users, a, rows[maps.Target(a.key)])];
        }
      }
      assert authors[..|authors|] == authors;
    }

    /** `restore_people`: after the admin's own grant; accounts that are gone are skipped. */
    method RestorePeople(users: set<UserId>, restore: Restore)
      modifies this`members, this`lead
      ensures members == Rejoined(users, old(members), restore.members)
      ensures lead == if restore.lead.Some? && restore.lead.value in users then restore.lead else None
    {
      var list := restore.members;
      for i := 0 to |list|
        invariant members == Rejoined(users, old(members), list[..i])
      {
        assert list[..i + 1][..i] == list[..i];
        if list[i].user in users { members := members[list[i].user := list[i].role]; }
      }
      assert list[..|list|] == list;
      lead := if restore.lead.Some? && restore.lead.value in users then restore.lead else None;
    }

    /** The import with its hooks: authors, the admin's grant, people. */
    method Unarchive(users: set<UserId>, file: Rows, maps: Maps, restore: Restore, admin: UserId)
      requires maps.For(file)
      modifies this
      ensures !isPublic
      ensures lead == if restore.lead.Some? && restore.lead.value in users then restore.lead else None
      ensures members == Rejoined(users, map[admin := Lead], restore.members)
      ensures exists imported: Rows ::
                IsImport(imported, file, maps) && rows == CorrectAll(users, maps, imported, restore.authors)
    {
      Import(file, maps, admin);
      ghost var imported := rows;
      RestoreAuthors(users, maps, restore.authors);
      members := members[admin := Lead];
      RestorePeople(users, restore);
      assert IsImport(imported, file, maps);
    }
  }

  /** The rows an import of the file makes. */
  ghost predicate IsImport(rows: Rows, file: Rows, maps: Maps)
    requires maps.For(file)
  {
    && (forall k :: k in file ==> maps.Target(k) in rows && rows[maps.Target(k)] == Imported(maps, k, file[k]))
    && (forall t :: t in rows ==> exists k :: k in file && t == maps.Target(k))
  }

  /** Members put back one after the other, those whose account exists. */
  function Rejoined(users: set<UserId>, members: map<UserId, Role>, list: seq<Member>): map<UserId, Role> {
    if list == [] then members
    else
      var before, m := Rejoined(users, members, list[..|list| - 1]), list[|list| - 1];
      if m.user in users then before[m.user := m.role] else before
  }

  function Within(rows: Rows, keys: set<Key>): Rows { map k | k in rows && k in keys :: rows[k] }

  lemma CollectOneMore(rows: Rows, seen: set<Key>, authors: seq<Author>, k: Key)
    requires k in rows && k !in seen && CollectsLocal(Within(rows, seen), authors)
    ensures CollectsLocal(Within(rows, seen + {k}),
                          if Local(k, rows[k]) then authors + [EntryOf(k, rows[k])] else authors)
  {
    hide Local, MadeHere, Describes;
    LocalIsMadeHere(k, rows[k]);
    var entry := EntryOf(k, rows[k]);
    var more := if Local(k, rows[k]) then authors + [entry] else authors;
    assert forall i :: 0 <= i < |authors| ==> authors[i].key in seen && more[i] == authors[i];
    forall j | j in Within(rows, seen + {k}) && MadeHere(j, rows[j])
      ensures exists i :: 0 <= i < |more| && more[i].key == j
    {
      if j == k {
        assert more[|authors|].key == k;
      } else {
        assert j in Within(rows, seen) && Within(rows, seen)[j] == rows[j];
        var i :| 0 <= i < |authors| && authors[i].key == j;
        assert more[i].key == j;
      }
    }
  }

  lemma EveryTable(t: Table)
    ensures t in [Comments, Attachments, AuditLog, StatusTransitions]
  {
  }

  // ---- The round trip ----

  /** The row that comes back for row `k`. */
  function RowAfter(names: Names, users: set<UserId>, maps: Maps, k: Key, row: Row): Row {
    var back := Imported(maps, k, Exported(names, row));
    if Local(k, row) then Corrected(users, EntryOf(k, row), back) else back
  }

  /** The members whose accounts still exist, in their roles, and the admin who unarchives. */
  ghost predicate MembersAfter(
      before: map<UserId, Role>, users: set<UserId>, admin: UserId, after: map<UserId, Role>)
  {
    && (forall u :: u in after <==> (u in before && u in users) || u == admin)
    && (forall u :: u in after ==> after[u] == if u in before && u in users then before[u] else Lead)
  }

  /** Every row under its new id, and no other. */
  ghost predicate RowsAfter(before: Rows, names: Names, users: set<UserId>, maps: Maps, after: Rows)
    requires maps.For(before)
  {
    && (forall k :: k in before ==>
          maps.Target(k) in after && after[maps.Target(k)] == RowAfter(names, users, maps, k, before[k]))
    && (forall t :: t in after ==> exists k :: k in before && t == maps.Target(k))
  }

  /** The text with ` (imported)` at its end, added unless it is there. */
  ghost predicate IsMarkedText(text: string, marked: string) {
    marked == if |text| >= 11 && text[|text| - 11..] == " (imported)" then text else text + " (imported)"
  }

  /** The name an account had, as an attribution. */
  function NameOf(names: Names, author: Option<UserId>): string {
    if author.Some? && author.value in names then names[author.value] + " (imported)" else "Unknown author (imported)"
  }

  /** What has become of one row, field by field. */
  ghost predicate Returns(names: Names, users: set<UserId>, maps: Maps, k: Key, row: Row, after: Row) {
    && after.entity == (if row.entity in maps.entities then maps.entities[row.entity] else 0)
    && if row.imported.Some? then // it came from an earlier import
         && after.author == None && after.imported.Some? && IsMarkedText(row.imported.value, after.imported.value)
         && (row.source.Some? && (k.table == AuditLog || k.table == StatusTransitions) ==> after.source == row.source)
       else
         match k.table
         case Comments => ReturnsToAuthor(names, users, row, after)
         case Attachments => ReturnsToAuthor(names, users, row, after)
         case AuditLog => ReturnsToActor(names, k, row, after) && (row.source == None && after.entity != 0 ==> after.source == None)
         case StatusTransitions => ReturnsToActor(names, k, row, after) && (row.source == None ==> after.source == None)
  }

  /** The account if it exists; else its name. */
  ghost predicate ReturnsToAuthor(names: Names, users: set<UserId>, row: Row, after: Row) {
    && after.source == None && after.transport == row.transport
    && if row.author.Some? && row.author.value in users then after.author == row.author && after.imported == None
       else after.author == None && after.imported == Some(NameOf(names, row.author))
  }

  /** Its actor, whether or not the account exists, and its transport; but with a source it passes for imported. */
  ghost predicate ReturnsToActor(names: Names, k: Key, row: Row, after: Row) {
    if row.source == None then
      && after.author == row.author && after.transport == row.transport && after.imported == None
      && (after.source.Some? ==> after.source == Some(Snapshot(k.id, row.transport, row.entity)))
    else
      && after.author == None && after.transport == "imported" && after.source == row.source
      && after.imported == Some(NameOf(names, row.author))
  }

  lemma RowReturns(names: Names, users: set<UserId>, maps: Maps, k: Key, row: Row)
    ensures Returns(names, users, maps, k, row, RowAfter(names, users, maps, k, row))
  {
    assert MARK == " (imported)" && "Unknown author" + MARK == "Unknown author (imported)";
    if row.imported == None { assert Marked(Attribution(names, row)) && Attribution(names, row) == NameOf(names, row.author); }
  }

  /** What one archive and unarchive make of a project. */
  ghost predicate AfterRoundTrip(
      before: Project, names: Names, users: set<UserId>, maps: Maps, admin: UserId, after: Project)
    requires maps.For(before.rows)
  {
    && !after.isPublic
    && after.lead == (if before.lead.Some? && before.lead.value in users then before.lead else None)
    && MembersAfter(before.members, users, admin, after.members)
    && RowsAfter(before.rows, names, users, maps, after.rows)
    && forall k :: k in before.rows ==>
         maps.Target(k) in after.rows && Returns(names, users, maps, k, before.rows[k], after.rows[maps.Target(k)])
  }

  lemma {:induction false} RejoinedMembers(users: set<UserId>, members: map<UserId, Role>, list: seq<Member>, u: UserId)
    ensures u in Rejoined(users, members, list) <==> u in members || (u in users && exists m :: m in list && m.user == u)
    ensures u in users && (exists m :: m in list && m.user == u) ==>
              Member(u, Rejoined(users, members, list)[u]) in list
    ensures u in members && (u !in users || forall m :: m in list ==> m.user != u) ==>
              Rejoined(users, members, list)[u] == members[u]
  {
    if list != [] {
      var front, last := list[..|list| - 1], list[|list| - 1];
      RejoinedMembers(users, members, front, u);
      assert list == front + [last];
    }
  }

  /** Corrections for distinct rows do not disturb each other. */
  lemma {:induction false} CorrectedRow(users: set<UserId>, maps: Maps, rows: Rows, authors: seq<Author>, k: Key)
    requires k in maps.rows && maps.Target(k) in rows
    requires forall i :: 0 <= i < |authors| ==> authors[i].key in maps.rows
    requires forall j :: j in maps.rows && j != k ==> maps.Target(j) != maps.Target(k)
    requires forall i, j :: 0 <= i < j < |authors| ==> authors[i].key != authors[j].key
    ensures CorrectAll(users, maps, rows, authors).Keys == rows.Keys
    ensures (forall i :: 0 <= i < |authors| ==> authors[i].key != k) ==>
              CorrectAll(users, maps, rows, authors)[maps.Target(k)] == rows[maps.Target(k)]
    ensures forall i :: 0 <= i < |authors| && authors[i].key == k ==>
              CorrectAll(users, maps, rows, authors)[maps.Target(k)] == Corrected(users, authors[i], rows[maps.Target(k)])
  {
    if authors != [] { CorrectedRow(users, maps, rows, authors[..|authors| - 1], k); }
  }

  function ExportRows(names: Names, rows: Rows): Rows { map k | k in rows :: Exported(names, rows[k]) }

  lemma RowsComeBack(
      rows: Rows, names: Names, users: set<UserId>, maps: Maps, imported: Rows, authors: seq<Author>, k: Key)
    requires maps.For(rows) && CollectsLocal(rows, authors) && k in rows
    requires maps.For(ExportRows(names, rows)) && IsImport(imported, ExportRows(names, rows), maps)
    ensures var after := CorrectAll(users, maps, imported, authors);
            after.Keys == imported.Keys && maps.Target(k) in after
            && after[maps.Target(k)] == RowAfter(names, users, maps, k, rows[k])
  {
    hide Imported, Corrected, Exported, Local, MadeHere, Describes;
    CorrectedRow(users, maps, imported, authors, k);
    LocalIsMadeHere(k, rows[k]);
    if Local(k, rows[k]) {
      var i :| 0 <= i < |authors| && authors[i].key == k;
      assert authors[i] == EntryOf(k, rows[k]);
    }
  }

  lemma MembersComeBack(members: map<UserId, Role>, users: set<UserId>, admin: UserId, list: seq<Member>, u: UserId)
    requires ListsMembers(members, list)
    ensures var after := Rejoined(users, map[admin := Lead], list);
            && (u in after <==> (u in members && u in users) || u == admin)
            && (u in after ==> after[u] == if u in members && u in users then members[u] else Lead)
  {
    hide Rejoined;
    RejoinedMembers(users, map[admin := Lead], list, u);
    if u in members { assert Member(u, members[u]).user == u; }
  }

  /**
    Archive a project, then unarchive it: the lead and the members come back as
    far as their accounts still exist, the admin who unarchives is the only
    member added, and every row comes back under its new id.
  */
  method RoundTrip(before: Project, names: Names, users: set<UserId>, maps: Maps, admin: UserId) returns (after: Project)
    requires maps.For(before.rows)
    ensures AfterRoundTrip(before, names, users, maps, admin, after)
  {
    hide CorrectAll, Rejoined, RowsAfter, MembersAfter, CollectsLocal, IsImport, ListsMembers, Returns;
    var live := new Tables(before);
    var restore := live.CollectRestore();
    var file := ExportRows(names, before.rows);
    var back := new Tables(Project(None, false, map[], map[]));
    back.Unarchive(users, file, maps, restore, admin);
    after := back.Value();
    ghost var imported :| IsImport(imported, file, maps) && after.rows == CorrectAll(users, maps, imported, restore.authors);
    AllRowsComeBack(before.rows, names, users, maps, imported, restore.authors);
    AllMembersComeBack(before.members, users, admin, restore.members);
    AllRowsReturn(before.rows, names, users, maps, after.rows);
  }

  lemma AllRowsReturn(before: Rows, names: Names, users: set<UserId>, maps: Maps, after: Rows)
    requires maps.For(before) && RowsAfter(before, names, users, maps, after)
    ensures forall k :: k in before ==>
              maps.Target(k) in after && Returns(names, users, maps, k, before[k], after[maps.Target(k)])
  {
    hide RowAfter, Returns;
    forall k | k in before ensures maps.Target(k) in after && Returns(names, users, maps, k, before[k], after[maps.Target(k)]) {
      RowReturns(names, users, maps, k, before[k]);
    }
  }

  lemma AllMembersComeBack(members: map<UserId, Role>, users: set<UserId>, admin: UserId, list: seq<Member>)
    requires ListsMembers(members, list)
    ensures MembersAfter(members, users, admin, Rejoined(users, map[admin := Lead], list))
  {
    hide Rejoined, ListsMembers;
    forall u ensures u in Rejoined(users, map[admin := Lead], list) <==> (u in members && u in users) || u == admin {
      MembersComeBack(members, users, admin, list, u);
    }
    forall u | u in Rejoined(users, map[admin := Lead], list)
      ensures Rejoined(users, map[admin := Lead], list)[u] == if u in members && u in users then members[u] else Lead
    {
      MembersComeBack(members, users, admin, list, u);
    }
  }

  lemma AllRowsComeBack(rows: Rows, names: Names, users: set<UserId>, maps: Maps, imported: Rows, authors: seq<Author>)
    requires maps.For(rows) && CollectsLocal(rows, authors)
    requires maps.For(ExportRows(names, rows)) && IsImport(imported, ExportRows(names, rows), maps)
    ensures RowsAfter(rows, names, users, maps, CorrectAll(users, maps, imported, authors))
  {
    hide CorrectAll, RowAfter, CollectsLocal, IsImport;
    forall k | k in rows
      ensures maps.Target(k) in CorrectAll(users, maps, imported, authors)
      ensures CorrectAll(users, maps, imported, authors)[maps.Target(k)] == RowAfter(names, users, maps, k, rows[k])
    {
      RowsComeBack(rows, names, users, maps, imported, authors, k);
    }
    NoOtherRows(rows, names, users, maps, imported, authors);
  }

  lemma NoOtherRows(
      rows: Rows, names: Names, users: set<UserId>, maps: Maps, imported: Rows, authors: seq<Author>)
    requires maps.For(rows) && maps.For(ExportRows(names, rows)) && IsImport(imported, ExportRows(names, rows), maps)
    ensures forall t :: t in CorrectAll(users, maps, imported, authors) ==> exists k :: k in rows && t == maps.Target(k)
  {
  }

  // ---- What that means for a row ----

  /** A comment or attachment of a local account returns to that account if it still exists, and else to its name. */
  lemma LocalAuthorship(names: Names, users: set<UserId>, maps: Maps, k: Key, row: Row)
    requires row.imported == None && row.author.Some? && (k.table == Comments || k.table == Attachments)
    ensures var after := RowAfter(names, users, maps, k, row);
            if row.author.value in users then after.author == row.author && after.imported == None
            else after.author == None && after.imported == Some(NameOf(names, row.author))
  {
    RowReturns(names, users, maps, k, row);
  }

  /** Local history returns with its actor, account or not, and its transport; only a row whose entity is gone keeps a source. */
  lemma LocalHistory(names: Names, users: set<UserId>, maps: Maps, k: Key, row: Row)
    requires row.imported == None && row.source == None && (k.table == AuditLog || k.table == StatusTransitions)
    requires forall e :: e in maps.entities ==> maps.entities[e] != 0
    ensures var after := RowAfter(names, users, maps, k, row);
            && after.author == row.author && after.transport == row.transport && after.imported == None
            && (after.source == None <==> !(k.table == AuditLog && row.entity !in maps.entities))
  {
  }

  /** A row that came from an earlier import keeps the attribution it had. */
  lemma ImportedAttribution(names: Names, users: set<UserId>, maps: Maps, k: Key, row: Row)
    requires row.imported.Some?
    ensures var after := RowAfter(names, users, maps, k, row);
            && after.author == None && after.imported.Some? && Marked(after.imported.value)
            && (Marked(row.imported.value) ==> after.imported == row.imported)
            && (row.source.Some? && History(k.table) ==> after.source == row.source)
  {
  }

  /**
    Two round trips: a local history row still names its actor afterwards exactly
    when it is not an audit row whose entity no longer exists. Such a row keeps
    its source from the first trip, passes for imported in the second, and ends
    with a name instead of the account.
  */
  lemma ActorAfterTwoRoundTrips(
      names: Names, users: set<UserId>, maps: Maps, names2: Names, users2: set<UserId>, maps2: Maps, k: Key, row: Row)
    requires row.imported == None && row.source == None && (k.table == AuditLog || k.table == StatusTransitions)
    requires k in maps.rows
    requires forall e :: e in maps.entities ==> maps.entities[e] != 0
    ensures var once := RowAfter(names, users, maps, k, row);
            var twice := RowAfter(names2, users2, maps2, maps.Target(k), once);
            (twice.author == row.author && twice.imported == None) <==>
            !(k.table == AuditLog && row.entity !in maps.entities)
  {
  }

  /** An audit row about an entity that is gone: the first trip keeps its actor, the second loses it. */
  lemma ActorLostOnTheSecondTrip() returns (k: Key, row: Row, maps: Maps, maps2: Maps, once: Row, twice: Row)
    ensures row.imported == None && row.source == None && k.table == AuditLog && row.author == Some(1)
    ensures maps.For(map[k := row]) && once == RowAfter(map[1 := "ann"], {1}, maps, k, row)
    ensures maps2.For(map[maps.Target(k) := once]) && twice == RowAfter(map[1 := "ann"], {1}, maps2, maps.Target(k), once)
    ensures once.author == Some(1) && twice.author == None
  {
    k, row := Key(AuditLog, 5), Row(Some(1), None, None, "web", 9);
    maps, maps2 := Maps(map[k := 6], map[]), Maps(map[Key(AuditLog, 6) := 7], map[]);
    once := RowAfter(map[1 := "ann"], {1}, maps, k, row);
    twice := RowAfter(map[1 := "ann"], {1}, maps2, maps.Target(k), once);
  }

  /** A comment or attachment of an account that exists throughout keeps it through any two round trips. */
  lemma AuthorAfterTwoRoundTrips(
      names: Names, users: set<UserId>, maps: Maps, names2: Names, users2: set<UserId>, maps2: Maps, k: Key, row: Row)
    requires row.imported == None && row.author.Some? && (k.table == Comments || k.table == Attachments)
    requires k in maps.rows && row.author.value in users && row.author.value in users2
    ensures var once := RowAfter(names, users, maps, k, row);
            var twice := RowAfter(names2, users2, maps2, maps.Target(k), once);
            twice.author == row.author && twice.imported == None
  {
  }
}
