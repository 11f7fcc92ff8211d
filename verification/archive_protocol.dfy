/**
  The crash protocol of `src/archived_projects.rs`: a project moves between the
  live database and one file in the archived-projects directory.

  The database runs in WAL mode with `synchronous = NORMAL`, so a power loss may
  drop any suffix of the commits made since the last completed checkpoint. The
  directory keeps two views: what processes see and what is surely on disk; a
  power loss settles every name on one of the two. Any number of archives and
  unarchives run at once; each is a process with a program counter.
*/
module ArchiveProtocol {
  import opened Common

  type Key = nat    // a project's identity; it survives the renumbering of an import
  type RowId = nat
  type Name = string
  type Proc = nat

  /** A project as it is packed into an archive file. */
  datatype Project = Project(key: Key, identifier: string, body: string)

  /** One row of `archived_projects`. */
  datatype Row = Row(file: Name, sha256: string, project: Project)

  /**
    The database after some commit. `known` is bookkeeping of the model: the
    projects their users created and did not delete.
  */
  datatype Db = Db(live: map<Key, Project>, listed: map<RowId, Row>, nextRow: RowId, known: set<Key>)

  type Dir = map<Name, Project>

  /** Where a process is. `A...` is archive, `U...` is unarchive. */
  datatype Pc =
    | Idle
    | ALocked(key: Key)                           // store lock held
    | AWriting(key: Key)                          // and an immediate transaction open
    | AFileOut(project: Project, name: Name)      // file renamed into place
    | AFileSynced(project: Project, name: Name)   // and its directory synced
    | AAbandoned(name: Name)                      // failed later: the file is a stray copy
    | ACleaned                                    // its removal was tried, directory not yet synced
    | URow(id: RowId, row: Row)                   // listing row read
    | UChecked(id: RowId, row: Row)               // file found, checksum matched
    | UStaged(id: RowId, row: Row, file: Project) // file read into the importer
    | ULocked(id: RowId, row: Row, file: Project)
    | UWriting(id: RowId, row: Row, file: Project)
    | UCommitted(name: Name, at: nat)             // the import is commit number `at`
    | UDurable(name: Name, at: nat)               // a checkpoint completed since
    | URemoving(name: Name, at: nat)              // store lock held again
    | URemoved                                    // file removed, directory not yet synced

  /**
    `history[k]` is the database after `k` commits, `durable` how many of them no
    power loss can drop, `hash` the checksum function.
  */
  datatype State = State(
    hash: Project -> string,
    history: seq<Db>,
    durable: nat,
    seen: Dir,
    disk: Dir,
    store: Option<Proc>,
    writer: Option<Proc>,
    pcs: map<Proc, Pc>)

  ghost predicate Formed(s: State) { s.durable < |s.history| }

  ghost function Current(s: State): Db
    requires Formed(s)
  {
    s.history[|s.history| - 1]
  }

  ghost function At(s: State, p: Proc): Pc { if p in s.pcs then s.pcs[p] else Idle }

  ghost function Move(s: State, p: Proc, pc: Pc): State { s.(pcs := s.pcs[p := pc]) }

  ghost function Commit(s: State, db: Db): State { s.(history := s.history + [db]) }

  ghost predicate Lists(db: Db, name: Name) {
    exists id :: id in db.listed && db.listed[id].file == name
  }

  ghost predicate TakesIdentifier(db: Db, identifier: string) {
    exists k :: k in db.live && db.live[k].identifier == identifier
  }

  // ---- The steps ----

  datatype ArchiveAction =
    | ALock(key: Key) | ABegin | AWriteFile(name: Name) | ASync | ASyncFails | AReportFails
    | ACommit | AFail | ARemoveStray | ARemovalFails | AUnlock

  datatype UnarchiveAction =
    | UReadRow(id: RowId) | UCheck | UStage | ULock | UBegin | UCommit
    | UCheckpoint | URelock | URemove | UUnlock

  datatype OtherAction =
    | Quit | Die
    | Create(project: Project) | Edit(project: Project) | Delete(key: Key)
    | Checkpoint(upTo: nat)
    | PowerLoss(kept: nat, after: Dir)

  datatype Step = ByArchive(a: ArchiveAction) | ByUnarchive(u: UnarchiveAction) | Otherwise(o: OtherAction)

  /** `archive` (lines 343-409): store lock, then an immediate transaction, then the file, then the rows. */
  ghost predicate ArchiveStep(s: State, step: ArchiveAction, p: Proc, s': State)
    requires Formed(s)
  {
    var pc := At(s, p);
    match step
    case ALock(key) =>
      pc == Idle && s.store == None && s' == Move(s, p, ALocked(key)).(store := Some(p))
    case ABegin =>
      pc.ALocked? && s.writer == None && s' == Move(s, p, AWriting(pc.key)).(writer := Some(p))
    case AWriteFile(name) => // fresh_file_name, then persist_noclobber
      && pc.AWriting? && pc.key in Current(s).live && name !in s.seen
      && var project := Current(s).live[pc.key];
         s' == Move(s, p, AFileOut(project, name)).(seen := s.seen[name := project])
    case ASync =>
      pc.AFileOut? && s' == Move(s, p, AFileSynced(pc.project, pc.name)).(disk := s.seen)
    case ASyncFails => // write_archive_locked fails after the rename: its error skips the cleanup
      pc.AFileOut? && s' == Move(s, p, Idle).(store := None, writer := None)
    case AReportFails => // and so does its last statement, the report
      pc.AFileSynced? && s' == Move(s, p, Idle).(store := None, writer := None)
    case ACommit => // UNIQUE(file_name) admits the row; insert and delete in one commit
      && pc.AFileSynced? && pc.name in s.seen && !Lists(Current(s), pc.name)
      && var db := Current(s);
         var row := Row(pc.name, s.hash(s.seen[pc.name]), pc.project);
         s' == Commit(Move(s, p, Idle).(store := None, writer := None),
                      db.(live := db.live - {pc.project.key},
                          listed := db.listed[db.nextRow := row],
                          nextRow := db.nextRow + 1))
    case AFail =>
      pc.AFileSynced? && s' == Move(s, p, AAbandoned(pc.name)).(writer := None)
    case ARemoveStray =>
      pc.AAbandoned? && s' == Move(s, p, ACleaned).(seen := s.seen - {pc.name})
    case ARemovalFails => // the result of the removal is ignored
      pc.AAbandoned? && s' == Move(s, p, ACleaned)
    case AUnlock => // the sync after the removal is best effort; it may not happen
      pc.ACleaned? && (s' == Move(s, p, Idle).(store := None) || s' == Move(s, p, Idle).(store := None, disk := s.seen))
  }

  /** `unarchive` (lines 425-504) up to and including the import's commit, then the guarded removal. */
  ghost predicate UnarchiveStep(s: State, step: UnarchiveAction, p: Proc, s': State)
    requires Formed(s)
  {
    var pc := At(s, p);
    match step
    case UReadRow(id) =>
      pc == Idle && id in Current(s).listed && s' == Move(s, p, URow(id, Current(s).listed[id]))
    case UCheck =>
      && pc.URow? && pc.row.file in s.seen && s.hash(s.seen[pc.row.file]) == pc.row.sha256
      && s' == Move(s, p, UChecked(pc.id, pc.row))
    case UStage =>
      && pc.UChecked? && pc.row.file in s.seen
      && s' == Move(s, p, UStaged(pc.id, pc.row, s.seen[pc.row.file]))
    case ULock =>
      pc.UStaged? && s.store == None && s' == Move(s, p, ULocked(pc.id, pc.row, pc.file)).(store := Some(p))
    case UBegin =>
      pc.ULocked? && s.writer == None && s' == Move(s, p, UWriting(pc.id, pc.row, pc.file)).(writer := Some(p))
    case UCommit => // identifier free, and the listing row still there to delete
      && pc.UWriting? && !TakesIdentifier(Current(s), pc.file.identifier) && pc.id in Current(s).listed
      && var db := Current(s);
         s' == Commit(Move(s, p, UCommitted(pc.row.file, |s.history|)).(store := None, writer := None),
                      db.(live := db.live[pc.file.key := pc.file],
                          listed := db.listed - {pc.id}))
    case UCheckpoint => // wal_checkpoint(FULL), not busy
      && pc.UCommitted? && s.writer == None
      && s' == Move(s, p, UDurable(pc.name, pc.at)).(durable := |s.history| - 1)
    case URelock =>
      pc.UDurable? && s.store == None && s' == Move(s, p, URemoving(pc.name, pc.at)).(store := Some(p))
    case URemove =>
      pc.URemoving? && s' == Move(s, p, URemoved).(seen := s.seen - {pc.name})
    case UUnlock =>
      pc.URemoved? && (s' == Move(s, p, Idle).(store := None) || s' == Move(s, p, Idle).(store := None, disk := s.seen))
  }

  /**
    A refusal or error before anything was changed, and every error of the
    removal at the end, which only leaves the file behind.
  */
  ghost predicate MayQuit(pc: Pc) {
    || pc.ALocked? || pc.AWriting? || pc.URow? || pc.UChecked? || pc.UStaged? || pc.ULocked? || pc.UWriting?
    || pc.UCommitted? || pc.UDurable? || pc.URemoving?
  }

  ghost function Release(s: State, p: Proc): State {
    Move(s, p, Idle).(
      store := if s.store == Some(p) then None else s.store,
      writer := if s.writer == Some(p) then None else s.writer)
  }

  /** Every name settles on the entry processes saw or on the one last synced. */
  ghost predicate Settles(seen: Dir, disk: Dir, after: Dir) {
    forall n :: (n in seen || n in disk || n in after) ==>
      || ((n in after <==> n in seen) && (n in after && n in seen ==> after[n] == seen[n]))
      || ((n in after <==> n in disk) && (n in after && n in disk ==> after[n] == disk[n]))
  }

  /** Ordinary writes, automatic checkpoints and crashes. A process death loses no commit; a power loss may. */
  ghost predicate EnvironmentStep(s: State, step: OtherAction, p: Proc, s': State)
    requires Formed(s)
  {
    match step
    case Quit => MayQuit(At(s, p)) && s' == Release(s, p)
    case Die => s' == Release(s, p)
    case Create(project) =>
      && s.writer == None && project.key !in Current(s).known && !TakesIdentifier(Current(s), project.identifier)
      && var db := Current(s);
         s' == Commit(s, db.(live := db.live[project.key := project], known := db.known + {project.key}))
    case Edit(project) =>
      && s.writer == None && project.key in Current(s).live
      && (forall k :: k in Current(s).live && Current(s).live[k].identifier == project.identifier ==> k == project.key)
      && s' == Commit(s, Current(s).(live := Current(s).live[project.key := project]))
    case Delete(key) =>
      && s.writer == None && key in Current(s).live
      && var db := Current(s);
         s' == Commit(s, db.(live := db.live - {key}, known := db.known - {key}))
    case Checkpoint(upTo) =>
      s.durable <= upTo < |s.history| && s' == s.(durable := upTo)
    case PowerLoss(kept, after) =>
      && s.durable <= kept < |s.history| && Settles(s.seen, s.disk, after)
      && s' == State(s.hash, s.history[..kept + 1], kept, after, after, None, None, map[])
  }

  ghost predicate Next(s: State, step: Step, p: Proc, s': State)
    requires Formed(s)
  {
    match step
    case ByArchive(a) => ArchiveStep(s, a, p, s')
    case ByUnarchive(u) => UnarchiveStep(s, u, p, s')
    case Otherwise(o) => EnvironmentStep(s, o, p, s')
  }

  // ---- The invariant ----

  /** No project is in two places and none is lost. */
  ghost predicate Conserved(db: Db) {
    && (forall k :: k in db.live ==> db.live[k].key == k && k in db.known)
    && (forall i :: i in db.listed ==>
          i < db.nextRow && db.listed[i].project.key !in db.live && db.listed[i].project.key in db.known)
    && (forall i, j :: i in db.listed && j in db.listed && i != j ==>
          db.listed[i].project.key != db.listed[j].project.key && db.listed[i].file != db.listed[j].file)
    && (forall k :: k in db.known ==> k in db.live || ListsKey(db, k))
    && (forall i, j :: i in db.live && j in db.live && i != j ==> db.live[i].identifier != db.live[j].identifier)
  }

  ghost predicate ListsKey(db: Db, k: Key) {
    exists i :: i in db.listed && db.listed[i].project.key == k
  }

  /** Every listed file is on disk whatever a power loss does, and is the packed project. */
  ghost predicate Backed(hash: Project -> string, db: Db, seen: Dir, disk: Dir) {
    forall i :: i in db.listed ==>
      var r := db.listed[i];
      && r.file in seen && r.file in disk
      && seen[r.file] == r.project && disk[r.file] == r.project
      && r.sha256 == hash(r.project)
  }

  ghost predicate HoldsStore(pc: Pc) {
    || pc.ALocked? || pc.AWriting? || pc.AFileOut? || pc.AFileSynced? || pc.AAbandoned? || pc.ACleaned?
    || pc.ULocked? || pc.UWriting? || pc.URemoving? || pc.URemoved?
  }

  ghost predicate HoldsWriter(pc: Pc) {
    pc.AWriting? || pc.AFileOut? || pc.AFileSynced? || pc.UWriting?
  }

  /** The file a process may still remove. */
  ghost predicate Claims(pc: Pc, name: Name) {
    match pc
    case AFileOut(_, n) => n == name
    case AFileSynced(_, n) => n == name
    case AAbandoned(n) => n == name
    case UCommitted(n, _) => n == name
    case UDurable(n, _) => n == name
    case URemoving(n, _) => n == name
    case _ => false
  }

  /** No database a power loss can leave lists `name`. */
  ghost predicate Unlisted(s: State, from: nat, name: Name) {
    forall k :: from <= k < |s.history| ==> !Lists(s.history[k], name)
  }

  ghost predicate ReadsRow(s: State, id: RowId, row: Row)
    requires Formed(s)
  {
    id < Current(s).nextRow && (id in Current(s).listed ==> Current(s).listed[id] == row)
  }

  ghost predicate PcOk(s: State, pc: Pc)
    requires Formed(s)
  {
    match pc
    case AFileOut(project, name) =>
      && name in s.seen && s.seen[name] == project && Unlisted(s, s.durable, name)
      && project.key in Current(s).live && Current(s).live[project.key] == project
    case AFileSynced(project, name) =>
      && name in s.seen && s.seen[name] == project && name in s.disk && s.disk[name] == project
      && Unlisted(s, s.durable, name)
      && project.key in Current(s).live && Current(s).live[project.key] == project
    case AAbandoned(name) => name in s.seen && Unlisted(s, s.durable, name)
    case URow(id, row) => ReadsRow(s, id, row)
    case UChecked(id, row) => ReadsRow(s, id, row)
    case UStaged(id, row, file) => ReadsRow(s, id, row) && (id in Current(s).listed ==> file == row.project)
    case ULocked(id, row, file) => ReadsRow(s, id, row) && (id in Current(s).listed ==> file == row.project)
    case UWriting(id, row, file) => ReadsRow(s, id, row) && (id in Current(s).listed ==> file == row.project)
    case UCommitted(name, at) => name in s.seen && at < |s.history| && Unlisted(s, at, name)
    case UDurable(name, at) => name in s.seen && at <= s.durable && Unlisted(s, at, name)
    case URemoving(name, at) => name in s.seen && at <= s.durable && Unlisted(s, at, name)
    case _ => true
  }

  ghost predicate HistoryOk(s: State)
    requires Formed(s)
  {
    forall k :: s.durable <= k < |s.history| ==>
      Conserved(s.history[k]) && Backed(s.hash, s.history[k], s.seen, s.disk)
  }

  ghost predicate LocksOk(s: State) {
    && (forall p: Proc :: HoldsStore(At(s, p)) ==> s.store == Some(p))
    && (forall p: Proc :: HoldsWriter(At(s, p)) ==> s.writer == Some(p))
  }

  ghost predicate PcsOk(s: State)
    requires Formed(s)
  {
    forall p: Proc :: PcOk(s, At(s, p))
  }

  /** At most one process may still remove a given file. */
  ghost predicate ClaimsOk(s: State) {
    forall p: Proc, q: Proc, n: Name :: Claims(At(s, p), n) && Claims(At(s, q), n) ==> p == q
  }

  ghost predicate Inv(s: State) {
    Formed(s) && HistoryOk(s) && LocksOk(s) && PcsOk(s) && ClaimsOk(s)
  }

  // ---- Every step keeps it ----

  lemma CommitKeepsHistory(s: State, s': State, db: Db)
    requires Formed(s) && HistoryOk(s)
    requires s'.history == s.history + [db] && s'.durable == s.durable
    requires s'.hash == s.hash && s'.seen == s.seen && s'.disk == s.disk
    requires Conserved(db) && Backed(s.hash, db, s.seen, s.disk)
    ensures HistoryOk(s')
  {
  }

  /** Removing an unlisted file, or writing under a new name, disturbs no recoverable database. */
  lemma DirectoryKeepsHistory(s: State, s': State, name: Name)
    requires Formed(s) && HistoryOk(s) && s'.history == s.history && s'.durable == s.durable && s'.hash == s.hash
    requires Unlisted(s, s.durable, name)
    requires forall n :: n != name ==> (n in s'.seen <==> n in s.seen) && (n in s.seen ==> s'.seen[n] == s.seen[n])
    requires s'.disk == s.disk || s'.disk == s'.seen
    ensures HistoryOk(s')
  {
  }

  lemma SeenIsUnlisted(s: State, name: Name)
    requires Inv(s) && name !in s.seen
    ensures Unlisted(s, s.durable, name)
  {
  }

  lemma ClaimedIsSeen(s: State, q: Proc, n: Name)
    requires Inv(s) && Claims(At(s, q), n)
    ensures n in s.seen && !Lists(Current(s), n)
  {
  }

  /** The commit of an archive: one project leaves `live` and one row lists it. */
  lemma ArchiveCommit(s: State, p: Proc, s': State)
    requires Inv(s) && ArchiveStep(s, ACommit, p, s')
    ensures Conserved(Current(s')) && Backed(s.hash, Current(s'), s.seen, s.disk)
    ensures forall n :: Lists(Current(s'), n) ==> n == At(s, p).name || Lists(Current(s), n)
    ensures Current(s').nextRow == Current(s).nextRow + 1
    ensures forall i :: i in Current(s).listed ==> i in Current(s').listed && Current(s').listed[i] == Current(s).listed[i]
    ensures forall i :: i in Current(s').listed && i != Current(s).nextRow ==> i in Current(s).listed
    ensures var row := Current(s').listed[Current(s).nextRow];
            && row.project.key in Current(s).live && row.project == Current(s).live[row.project.key]
            && Current(s').live == Current(s).live - {row.project.key}
  {
    var pc := At(s, p);
    assert PcOk(s, pc);
    var db := Current(s);
    assert Conserved(db) && Backed(s.hash, db, s.seen, s.disk);
    ListingConserves(db, pc.project, Row(pc.name, s.hash(pc.project), pc.project), Current(s'));
  }

  lemma ListingConserves(db: Db, project: Project, row: Row, db': Db)
    requires Conserved(db) && row.project == project && !Lists(db, row.file)
    requires project.key in db.live && db.live[project.key] == project
    requires db' == db.(live := db.live - {project.key}, listed := db.listed[db.nextRow := row], nextRow := db.nextRow + 1)
    ensures Conserved(db')
  {
    RowsStayApart(db, row, db');
    forall k | k in db'.known ensures k in db'.live || ListsKey(db', k) {
      StillListed(db, row, db', k);
    }
    hide Lists, ListsKey;
  }

  lemma RowsStayApart(db: Db, row: Row, db': Db)
    requires Conserved(db) && !Lists(db, row.file) && row.project.key in db.live
    requires db'.listed == db.listed[db.nextRow := row]
    ensures forall i, j :: i in db'.listed && j in db'.listed && i != j ==>
              db'.listed[i].project.key != db'.listed[j].project.key && db'.listed[i].file != db'.listed[j].file
  {
    forall i | i in db.listed ensures db.listed[i].file != row.file {}
    hide Lists, ListsKey;
  }

  lemma StillListed(db: Db, row: Row, db': Db, k: Key)
    requires db.nextRow !in db.listed && db'.listed == db.listed[db.nextRow := row]
    requires ListsKey(db, k) || k == row.project.key || k in db'.live
    ensures k in db'.live || ListsKey(db', k)
  {
    if k == row.project.key {
      assert db.nextRow in db'.listed;
    } else if k !in db'.live {
      var i :| i in db.listed && db.listed[i].project.key == k;
      assert i in db'.listed && db'.listed[i] == db.listed[i];
    }
  }

  /** The commit of an unarchive: the row goes and its project is live again, as it was archived. */
  lemma UnarchiveCommit(s: State, p: Proc, s': State)
    requires Inv(s) && UnarchiveStep(s, UCommit, p, s')
    ensures Conserved(Current(s')) && Backed(s.hash, Current(s'), s.seen, s.disk)
    ensures forall n :: Lists(Current(s'), n) ==> n != At(s, p).row.file && Lists(Current(s), n)
    ensures Lists(Current(s), At(s, p).row.file)
    ensures Current(s').nextRow == Current(s).nextRow
    ensures forall i :: i in Current(s').listed ==> i in Current(s).listed && Current(s').listed[i] == Current(s).listed[i]
    ensures var project := Current(s).listed[At(s, p).id].project;
            Current(s').live == Current(s).live[project.key := project]
  {
    var pc := At(s, p);
    assert PcOk(s, pc);
    var db, db' := Current(s), Current(s');
    assert Conserved(db) && Backed(s.hash, db, s.seen, s.disk);
    assert db.listed[pc.id] == pc.row && pc.file == pc.row.project;
    forall k | k in db'.known ensures k in db'.live || ListsKey(db', k) {
      if k != pc.file.key && k !in db.live {
        var i :| i in db.listed && db.listed[i].project.key == k;
        assert i in db'.listed && db'.listed[i] == db.listed[i];
      }
    }
  }

  /** Ordinary writes leave the listing alone and lose no project. */
  lemma OrdinaryCommit(s: State, step: OtherAction, p: Proc, s': State)
    requires Inv(s) && EnvironmentStep(s, step, p, s') && (step.Create? || step.Edit? || step.Delete?)
    ensures Conserved(Current(s')) && Backed(s.hash, Current(s'), s.seen, s.disk)
    ensures Current(s').listed == Current(s).listed && Current(s').nextRow == Current(s).nextRow
  {
    var db, db' := Current(s), Current(s');
    assert Conserved(db) && Backed(s.hash, db, s.seen, s.disk);
    forall k | k in db'.known ensures k in db'.live || ListsKey(db', k) {
      if k in db.known && k !in db.live {
        var i :| i in db.listed && db.listed[i].project.key == k;
        assert i in db'.listed;
      }
    }
  }

  /** A step that commits nothing and leaves a process its file leaves what is known of that process. */
  lemma QuietPc(s: State, s': State, pc: Pc)
    requires Formed(s) && s'.history == s.history && s.durable <= s'.durable && Formed(s') && PcOk(s, pc)
    requires forall n :: Claims(pc, n) ==> n in s'.seen && n in s.seen && s'.seen[n] == s.seen[n]
    requires pc.AFileSynced? ==> s'.disk == s.disk || s'.disk == s'.seen
    ensures PcOk(s', pc)
  {
  }

  /** A commit that lists nothing the process may still remove, and does not rewrite the row it read. */
  lemma CommitPc(s: State, s': State, db: Db, pc: Pc)
    requires Formed(s) && s'.history == s.history + [db] && s'.durable == s.durable && Formed(s') && PcOk(s, pc)
    requires s'.seen == s.seen && s'.disk == s.disk
    requires !HoldsWriter(pc)
    requires forall n :: Claims(pc, n) ==> !Lists(db, n)
    requires Current(s).nextRow <= db.nextRow
    requires forall i :: i in db.listed && i < Current(s).nextRow ==> i in Current(s).listed && db.listed[i] == Current(s).listed[i]
    ensures PcOk(s', pc)
  {
  }

  lemma ClaimsOfOthers(s: State, p: Proc, q: Proc)
    requires Inv(s) && p != q
    ensures forall n :: Claims(At(s, q), n) ==> n in s.seen && !Lists(Current(s), n) && !Claims(At(s, p), n)
  {
  }

  lemma ArchivePc(s: State, step: ArchiveAction, p: Proc, s': State, q: Proc)
    requires Inv(s) && ArchiveStep(s, step, p, s') && q != p
    ensures At(s', q) == At(s, q) && PcOk(s', At(s', q))
  {
    var pc := At(s, q);
    assert PcOk(s, pc) && At(s', q) == pc;
    ClaimsOfOthers(s, p, q);
    if step.ACommit? {
      ArchiveCommit(s, p, s');
      assert Claims(At(s, p), At(s, p).name);
      CommitPc(s, s', Current(s'), pc);
    } else {
      assert step.ARemoveStray? ==> Claims(At(s, p), At(s, p).name);
      QuietPc(s, s', pc);
    }
  }

  lemma ArchiveOwnPc(s: State, step: ArchiveAction, p: Proc, s': State)
    requires Inv(s) && ArchiveStep(s, step, p, s')
    ensures PcOk(s', At(s', p))
  {
  }

  lemma ArchiveHistory(s: State, step: ArchiveAction, p: Proc, s': State)
    requires Inv(s) && ArchiveStep(s, step, p, s')
    ensures HistoryOk(s')
  {
    assert PcOk(s, At(s, p));
    match step
    case ACommit =>
      ArchiveCommit(s, p, s');
      CommitKeepsHistory(s, s', Current(s'));
    case AWriteFile(name) =>
      SeenIsUnlisted(s, name);
      DirectoryKeepsHistory(s, s', name);
    case ARemoveStray =>
      DirectoryKeepsHistory(s, s', At(s, p).name);
    case _ =>
  }

  lemma ArchiveClaims(s: State, step: ArchiveAction, p: Proc, s': State, q: Proc, r: Proc, n: Name)
    requires Inv(s) && ArchiveStep(s, step, p, s')
    requires Claims(At(s', q), n) && Claims(At(s', r), n)
    ensures q == r
  {
    if q != p { ClaimedIsSeen(s, q, n); }
    if r != p { ClaimedIsSeen(s, r, n); }
  }

  /** What an unarchive step other than the commit does to the state processes share. */
  lemma UnarchiveShared(s: State, step: UnarchiveAction, p: Proc, s': State)
    requires Inv(s) && UnarchiveStep(s, step, p, s') && !step.UCommit?
    ensures s'.history == s.history && s.durable <= s'.durable && Formed(s')
    ensures s'.disk == s.disk || s'.disk == s'.seen
    ensures s'.hash == s.hash && (!step.URemove? ==> s'.seen == s.seen)
    ensures step.URemove? ==> Claims(At(s, p), At(s, p).name) && s'.seen == s.seen - {At(s, p).name}
  {
  }

  lemma UnarchiveCommitShape(s: State, p: Proc, s': State)
    requires Formed(s) && UnarchiveStep(s, UCommit, p, s')
    ensures Formed(s') && s'.history == s.history + [Current(s')] && s'.durable == s.durable
    ensures s'.hash == s.hash && s'.seen == s.seen && s'.disk == s.disk
  {
  }

  lemma UnarchiveOthersStay(s: State, step: UnarchiveAction, p: Proc, s': State, q: Proc)
    requires Inv(s) && UnarchiveStep(s, step, p, s') && q != p
    ensures PcOk(s, At(s, q)) && At(s', q) == At(s, q)
    ensures step.UCommit? ==> !HoldsWriter(At(s, q))
  {
  }

  lemma UnarchiveCommitPc(s: State, p: Proc, s': State, q: Proc)
    requires Inv(s) && UnarchiveStep(s, UCommit, p, s') && q != p
    ensures At(s', q) == At(s, q) && PcOk(s', At(s', q))
  {
    UnarchiveOthersStay(s, UCommit, p, s', q);
    ClaimsOfOthers(s, p, q);
    UnarchiveCommit(s, p, s');
    UnarchiveCommitShape(s, p, s');
    hide UnarchiveStep, Inv, PcOk, Claims, Conserved, Backed;
    CommitPc(s, s', Current(s'), At(s, q));
  }

  lemma UnarchivePc(s: State, step: UnarchiveAction, p: Proc, s': State, q: Proc)
    requires Inv(s) && UnarchiveStep(s, step, p, s') && q != p
    ensures At(s', q) == At(s, q) && PcOk(s', At(s', q))
  {
    if step.UCommit? {
      UnarchiveCommitPc(s, p, s', q);
    } else {
      UnarchiveOthersStay(s, step, p, s', q);
      ClaimsOfOthers(s, p, q);
      UnarchiveShared(s, step, p, s');
      hide UnarchiveStep, Inv, PcOk, Claims;
      QuietPc(s, s', At(s, q));
    }
  }

  lemma UnarchiveCommitOwnPc(s: State, p: Proc, s': State)
    requires Inv(s) && UnarchiveStep(s, UCommit, p, s')
    ensures PcOk(s', At(s', p))
  {
  }

  lemma UnarchiveReadsOwnPc(s: State, step: UnarchiveAction, p: Proc, s': State)
    requires Inv(s) && UnarchiveStep(s, step, p, s') && (step.UReadRow? || step.UStage?)
    ensures PcOk(s', At(s', p))
  {
    assert PcOk(s, At(s, p)) && Conserved(Current(s)) && Backed(s.hash, Current(s), s.seen, s.disk);
    hide HistoryOk, LocksOk, ClaimsOk, PcsOk, Lists;
  }

  lemma UnarchiveOwnPc(s: State, step: UnarchiveAction, p: Proc, s': State)
    requires Inv(s) && UnarchiveStep(s, step, p, s')
    ensures PcOk(s', At(s', p))
  {
    if step.UCommit? {
      UnarchiveCommitOwnPc(s, p, s');
    } else if step.UReadRow? || step.UStage? {
      UnarchiveReadsOwnPc(s, step, p, s');
    } else {
      assert PcOk(s, At(s, p));
      hide HistoryOk, LocksOk, ClaimsOk, PcsOk, Lists;
    }
  }

  lemma UnarchiveCommitHistory(s: State, p: Proc, s': State)
    requires Inv(s) && UnarchiveStep(s, UCommit, p, s')
    ensures HistoryOk(s')
  {
    UnarchiveCommit(s, p, s');
    UnarchiveCommitShape(s, p, s');
    hide UnarchiveStep, PcsOk, LocksOk, ClaimsOk, HistoryOk, Conserved, Backed, Lists;
    CommitKeepsHistory(s, s', Current(s'));
  }

  lemma RemovalHistory(s: State, p: Proc, s': State)
    requires Inv(s) && UnarchiveStep(s, URemove, p, s')
    ensures HistoryOk(s')
  {
    assert PcOk(s, At(s, p));
    hide PcsOk, LocksOk, ClaimsOk, HistoryOk, Conserved, Backed, Lists;
    DirectoryKeepsHistory(s, s', At(s, p).name);
  }

  lemma UnarchiveHistory(s: State, step: UnarchiveAction, p: Proc, s': State)
    requires Inv(s) && UnarchiveStep(s, step, p, s')
    ensures HistoryOk(s')
  {
    if step.UCommit? {
      UnarchiveCommitHistory(s, p, s');
    } else if step.URemove? {
      RemovalHistory(s, p, s');
    } else {
      UnarchiveShared(s, step, p, s');
      hide UnarchiveStep, PcsOk, LocksOk, ClaimsOk, Claims, Conserved;
    }
  }

  lemma UnarchiveClaims(s: State, step: UnarchiveAction, p: Proc, s': State, q: Proc, r: Proc, n: Name)
    requires Inv(s) && UnarchiveStep(s, step, p, s')
    requires Claims(At(s', q), n) && Claims(At(s', r), n)
    ensures q == r
  {
    if q != p { ClaimedIsSeen(s, q, n); }
    if r != p { ClaimedIsSeen(s, r, n); }
    if step.UCommit? {
      NewClaimIsListed(s, p, s');
    } else {
      hide HistoryOk, PcsOk, LocksOk, Lists;
    }
    hide UnarchiveStep, HistoryOk, PcsOk, LocksOk;
  }

  /** A commit claims a file that a row listed, so nobody else did. */
  lemma NewClaimIsListed(s: State, p: Proc, s': State)
    requires Inv(s) && UnarchiveStep(s, UCommit, p, s')
    ensures forall n :: Claims(At(s', p), n) ==> Lists(Current(s), n)
    ensures forall q :: q != p ==> At(s', q) == At(s, q)
  {
    UnarchiveCommit(s, p, s');
  }

  lemma OrdinaryCommitKeepsInv(s: State, step: OtherAction, p: Proc, s': State)
    requires Inv(s) && EnvironmentStep(s, step, p, s') && (step.Create? || step.Edit? || step.Delete?)
    ensures Inv(s')
  {
    OrdinaryCommit(s, step, p, s');
    assert forall q: Proc :: At(s', q) == At(s, q);
    assert s' == Commit(s, Current(s')) && !HoldsWriter(At(s, p));
    assert s.writer == None && LocksOk(s') && ClaimsOk(s');
    hide EnvironmentStep, Conserved, Backed;
    CommitKeepsHistory(s, s', Current(s'));
    forall q: Proc ensures PcOk(s', At(s', q)) {
      assert PcOk(s, At(s, q));
      forall n | Claims(At(s, q), n) ensures !Lists(Current(s'), n) { ClaimedIsSeen(s, q, n); }
      CommitPc(s, s', Current(s'), At(s, q));
    }
  }

  /** A process that stops, and a checkpoint, change no file and commit nothing. */
  lemma EnvironmentKeepsInv(s: State, step: OtherAction, p: Proc, s': State)
    requires Inv(s) && EnvironmentStep(s, step, p, s') && (step.Quit? || step.Die? || step.Checkpoint?)
    ensures Inv(s')
  {
    assert s'.history == s.history && s'.seen == s.seen && s'.disk == s.disk && s'.hash == s.hash;
    assert Formed(s') && s.durable <= s'.durable;
    assert forall q: Proc :: At(s', q) == At(s, q) || At(s', q) == Idle;
    assert LocksOk(s');
    hide EnvironmentStep, Conserved, Backed;
    forall q: Proc ensures PcOk(s', At(s', q)) {
      assert PcOk(s, At(s, q));
      forall n | Claims(At(s, q), n) ensures n in s.seen { ClaimedIsSeen(s, q, n); }
      if At(s', q) != Idle { QuietPc(s, s', At(s, q)); }
    }
    forall q: Proc, r: Proc, n: Name | Claims(At(s', q), n) && Claims(At(s', r), n) ensures q == r {
      assert Claims(At(s, q), n) && Claims(At(s, r), n);
    }
  }

  /** What a power loss leaves satisfies the invariant again. */
  lemma PowerLossKeepsInv(s: State, step: OtherAction, p: Proc, s': State)
    requires Inv(s) && EnvironmentStep(s, step, p, s') && step.PowerLoss?
    ensures Inv(s')
  {
  }

  /** A process takes a free lock, gives its own back, or leaves the lock alone. */
  ghost predicate LockMoves(p: Proc, before: Option<Proc>, after: Option<Proc>) {
    after == before || (before == None && after == Some(p)) || (before == Some(p) && after == None)
  }

  lemma ArchiveLocks(s: State, step: ArchiveAction, p: Proc, s': State)
    requires Formed(s) && LocksOk(s) && ArchiveStep(s, step, p, s')
    ensures LockMoves(p, s.store, s'.store) && LockMoves(p, s.writer, s'.writer)
    ensures HoldsStore(At(s', p)) ==> s'.store == Some(p)
    ensures HoldsWriter(At(s', p)) ==> s'.writer == Some(p)
  {
  }

  lemma UnarchiveLocks(s: State, step: UnarchiveAction, p: Proc, s': State)
    requires Formed(s) && LocksOk(s) && UnarchiveStep(s, step, p, s')
    ensures LockMoves(p, s.store, s'.store) && LockMoves(p, s.writer, s'.writer)
    ensures HoldsStore(At(s', p)) ==> s'.store == Some(p)
    ensures HoldsWriter(At(s', p)) ==> s'.writer == Some(p)
  {
    assert HoldsStore(At(s, p)) ==> s.store == Some(p);
    assert HoldsWriter(At(s, p)) ==> s.writer == Some(p);
  }

  lemma LocksKept(s: State, p: Proc, s': State)
    requires LocksOk(s) && LockMoves(p, s.store, s'.store) && LockMoves(p, s.writer, s'.writer)
    requires HoldsStore(At(s', p)) ==> s'.store == Some(p)
    requires HoldsWriter(At(s', p)) ==> s'.writer == Some(p)
    requires forall q: Proc :: q != p ==> At(s', q) == At(s, q)
    ensures LocksOk(s')
  {
  }

  lemma ArchiveKeepsInv(s: State, step: ArchiveAction, p: Proc, s': State)
    requires Inv(s) && ArchiveStep(s, step, p, s')
    ensures Inv(s')
  {
    ArchiveHistory(s, step, p, s');
    ArchiveOwnPc(s, step, p, s');
    ArchiveLocks(s, step, p, s');
    forall q: Proc | q != p ensures At(s', q) == At(s, q) && PcOk(s', At(s', q)) { ArchivePc(s, step, p, s', q); }
    forall q: Proc, r: Proc, n: Name | Claims(At(s', q), n) && Claims(At(s', r), n) ensures q == r {
      ArchiveClaims(s, step, p, s', q, r, n);
    }
    hide ArchiveStep, PcOk, Claims, HistoryOk, HoldsStore, HoldsWriter, LockMoves;
    LocksKept(s, p, s');
  }

  lemma UnarchiveKeepsInv(s: State, step: UnarchiveAction, p: Proc, s': State)
    requires Inv(s) && UnarchiveStep(s, step, p, s')
    ensures Inv(s')
  {
    UnarchiveHistory(s, step, p, s');
    UnarchiveOwnPc(s, step, p, s');
    UnarchiveLocks(s, step, p, s');
    forall q: Proc | q != p ensures At(s', q) == At(s, q) && PcOk(s', At(s', q)) { UnarchivePc(s, step, p, s', q); }
    forall q: Proc, r: Proc, n: Name | Claims(At(s', q), n) && Claims(At(s', r), n) ensures q == r {
      UnarchiveClaims(s, step, p, s', q, r, n);
    }
    hide UnarchiveStep, PcOk, Claims, HistoryOk, HoldsStore, HoldsWriter, LockMoves;
    LocksKept(s, p, s');
  }

  lemma NextKeepsInv(s: State, step: Step, p: Proc, s': State)
    requires Inv(s) && Next(s, step, p, s')
    ensures Inv(s')
  {
    hide Inv, ArchiveStep, UnarchiveStep, EnvironmentStep;
    match step
    case ByArchive(a) => ArchiveKeepsInv(s, a, p, s');
    case ByUnarchive(u) => UnarchiveKeepsInv(s, u, p, s');
    case Otherwise(o) =>
      if o.PowerLoss? { PowerLossKeepsInv(s, o, p, s'); }
      else if o.Create? || o.Edit? || o.Delete? { OrdinaryCommitKeepsInv(s, o, p, s'); }
      else { EnvironmentKeepsInv(s, o, p, s'); }
  }

  // ---- Whole runs ----

  ghost predicate Init(s: State) {
    && |s.history| == 1 && s.durable == 0 && s.seen == s.disk
    && Conserved(s.history[0]) && Backed(s.hash, s.history[0], s.seen, s.disk)
    && s.store == None && s.writer == None && s.pcs == map[]
  }

  /** One scheduled step: which process moves, and how. */
  datatype Turn = Turn(step: Step, who: Proc)

  ghost predicate IsRun(run: seq<State>, turns: seq<Turn>) {
    && |run| == |turns| + 1 && Init(run[0])
    && (forall i :: 0 <= i < |run| ==> Formed(run[i]))
    && (forall i :: 0 <= i < |turns| ==> Next(run[i], turns[i].step, turns[i].who, run[i + 1]))
  }

  lemma RunLength(run: seq<State>, turns: seq<Turn>)
    requires IsRun(run, turns)
    ensures |run| == |turns| + 1
  {
  }

  lemma RunStarts(run: seq<State>, turns: seq<Turn>)
    requires IsRun(run, turns)
    ensures Inv(run[0])
  {
  }

  lemma RunTurn(run: seq<State>, turns: seq<Turn>, i: nat)
    requires IsRun(run, turns) && i < |turns|
    ensures Formed(run[i]) && Next(run[i], turns[i].step, turns[i].who, run[i + 1])
  {
  }

  lemma {:induction false} RunKeepsInv(run: seq<State>, turns: seq<Turn>, i: nat)
    requires IsRun(run, turns) && i < |run|
    ensures Inv(run[i])
  {
    hide IsRun, Inv, Next;
    if i == 0 {
      RunStarts(run, turns);
    } else {
      assert |run| == |turns| + 1 by { RunLength(run, turns); }
      RunTurn(run, turns, i - 1);
      RunKeepsInv(run, turns, i - 1);
      NextKeepsInv(run[i - 1], turns[i - 1].step, turns[i - 1].who, run[i]);
    }
  }

  /** The row that lists project `k`, its file there and intact. */
  ghost predicate ListedIntact(hash: Project -> string, db: Db, dir: Dir, k: Key) {
    exists i :: i in db.listed
      && db.listed[i].project.key == k
      && (forall j :: j in db.listed && db.listed[j].project.key == k ==> j == i)
      && db.listed[i].file in dir
      && dir[db.listed[i].file] == db.listed[i].project
      && hash(dir[db.listed[i].file]) == db.listed[i].sha256
  }

  /**
    Crash safety. However archives, unarchives and ordinary writes interleave,
    and wherever the power fails, the recovered database and directory hold
    every project exactly once: live, or listed once with its file present,
    matching the recorded checksum and holding that project.
  */
  lemma CrashSafety(run: seq<State>, turns: seq<Turn>, kept: nat, after: Dir, p: Proc, s': State)
    requires IsRun(run, turns)
    requires EnvironmentStep(run[|run| - 1], PowerLoss(kept, after), p, s')
    ensures forall k :: k in Current(s').known ==>
              if k in Current(s').live then !ListsKey(Current(s'), k)
              else ListedIntact(s'.hash, Current(s'), s'.seen, k)
    ensures forall k :: k in Current(s').live || ListsKey(Current(s'), k) ==> k in Current(s').known
  {
    var s := run[|run| - 1];
    RunKeepsInv(run, turns, |run| - 1);
    PowerLossKeepsInv(s, PowerLoss(kept, after), p, s');
    var db := Current(s');
    assert Conserved(db) && Backed(s'.hash, db, s'.seen, s'.disk);
    forall k | k in db.known && k !in db.live
      ensures ListedIntact(s'.hash, db, s'.seen, k)
    {
      var i :| i in db.listed && db.listed[i].project.key == k;
    }
  }

  /** The file an unarchive removes is listed by no database a crash could bring back. */
  lemma RemovalIsSafe(run: seq<State>, turns: seq<Turn>, i: nat, k: nat)
    requires IsRun(run, turns) && i < |turns| && turns[i].step == ByUnarchive(URemove)
    requires run[i].durable <= k < |run[i].history|
    ensures At(run[i], turns[i].who).URemoving?
    ensures !Lists(run[i].history[k], At(run[i], turns[i].who).name)
  {
    RunKeepsInv(run, turns, i);
    assert Next(run[i], turns[i].step, turns[i].who, run[i + 1]);
    assert PcOk(run[i], At(run[i], turns[i].who));
  }

  /** Archiving lists the project that was live; unarchiving makes the listed project live again, unchanged. */
  lemma MovesOneProject(run: seq<State>, turns: seq<Turn>, i: nat)
    requires IsRun(run, turns) && i < |turns|
    ensures turns[i].step == ByArchive(ACommit) ==>
              exists id :: id !in Current(run[i]).listed && id in Current(run[i + 1]).listed
                && var project := Current(run[i + 1]).listed[id].project;
                   && project.key in Current(run[i]).live && project == Current(run[i]).live[project.key]
                   && Current(run[i + 1]).live == Current(run[i]).live - {project.key}
    ensures turns[i].step == ByUnarchive(UCommit) ==>
              exists id :: id in Current(run[i]).listed && id !in Current(run[i + 1]).listed
                && var project := Current(run[i]).listed[id].project;
                   Current(run[i + 1]).live == Current(run[i]).live[project.key := project]
  {
    var s, s', p := run[i], run[i + 1], turns[i].who;
    RunKeepsInv(run, turns, i);
    assert Conserved(Current(s));
    if turns[i].step == ByArchive(ACommit) {
      ArchiveCommit(s, p, s');
    } else if turns[i].step == ByUnarchive(UCommit) {
      UnarchiveCommit(s, p, s');
      assert At(s, p).id !in Current(s').listed;
    }
  }

  // ---- When a failed archive leaves its file ----

  /** The three failures after which nothing removes the file. */
  predicate SkipsCleanup(step: Step) {
    step == ByArchive(ASyncFails) || step == ByArchive(AReportFails) || step == ByArchive(ARemovalFails)
  }

  /** One archive of `p`: it takes the store lock in turn `a`, and is idle again in state `b` and not before. */
  ghost predicate Attempts(run: seq<State>, turns: seq<Turn>, p: Proc, a: nat, b: nat)
    requires |run| == |turns| + 1
  {
    && a < b <= |turns| && turns[a].who == p && turns[a].step.ByArchive? && turns[a].step.a.ALock?
    && At(run[b], p) == Idle && forall k :: a < k < b ==> At(run[k], p) != Idle
  }

  /** It did not commit, the process did not die, and the power did not fail. */
  ghost predicate Fails(turns: seq<Turn>, p: Proc, a: nat, b: nat)
    requires b <= |turns|
  {
    forall k :: a <= k < b ==>
      && !(turns[k].step.Otherwise? && turns[k].step.o.PowerLoss?)
      && (turns[k].who == p ==> turns[k].step != ByArchive(ACommit) && turns[k].step != Otherwise(Die))
  }

  ghost predicate Wrote(turns: seq<Turn>, p: Proc, a: nat, b: nat, name: Name)
    requires b <= |turns|
  {
    exists k :: a <= k < b && turns[k] == Turn(ByArchive(AWriteFile(name)), p)
  }

  ghost predicate Skipped(turns: seq<Turn>, p: Proc, a: nat, b: nat)
    requires b <= |turns|
  {
    exists k :: a <= k < b && turns[k].who == p && SkipsCleanup(turns[k].step)
  }

  ghost predicate WroteOnly(turns: seq<Turn>, p: Proc, a: nat, b: nat, name: Name)
    requires b <= |turns|
  {
    forall n :: Wrote(turns, p, a, b, n) <==> n == name
  }

  ghost predicate WroteNothing(turns: seq<Turn>, p: Proc, a: nat, b: nat)
    requires b <= |turns|
  {
    (forall n :: !Wrote(turns, p, a, b, n)) && !Skipped(turns, p, a, b)
  }

  /** Where the attempt stands: what it wrote, and whether that is still there. */
  ghost predicate Standing(s: State, turns: seq<Turn>, p: Proc, a: nat, k: nat)
    requires k <= |turns|
  {
    match At(s, p)
    case ALocked(_) => WroteNothing(turns, p, a, k)
    case AWriting(_) => WroteNothing(turns, p, a, k)
    case AFileOut(_, name) => WroteOnly(turns, p, a, k, name) && name in s.seen && !Skipped(turns, p, a, k)
    case AFileSynced(_, name) => WroteOnly(turns, p, a, k, name) && name in s.seen && !Skipped(turns, p, a, k)
    case AAbandoned(name) => WroteOnly(turns, p, a, k, name) && name in s.seen && !Skipped(turns, p, a, k)
    case ACleaned => exists name :: Left(s, turns, p, a, k, name)
    case Idle => WroteNothing(turns, p, a, k) || exists name :: Left(s, turns, p, a, k, name)
    case _ => false
  }

  /** The one file written is there exactly if a failure skipped its removal. */
  ghost predicate Left(s: State, turns: seq<Turn>, p: Proc, a: nat, k: nat, name: Name)
    requires k <= |turns|
  {
    WroteOnly(turns, p, a, k, name) && (name in s.seen <==> Skipped(turns, p, a, k))
  }

  /** One more turn adds to what was written and skipped what that turn itself did. */
  lemma OneMoreTurn(turns: seq<Turn>, p: Proc, a: nat, k: nat)
    requires a <= k < |turns|
    ensures forall n :: Wrote(turns, p, a, k + 1, n) <==>
              Wrote(turns, p, a, k, n) || turns[k] == Turn(ByArchive(AWriteFile(n)), p)
    ensures Skipped(turns, p, a, k + 1) <==> Skipped(turns, p, a, k) || (turns[k].who == p && SkipsCleanup(turns[k].step))
  {
  }

  /** While `p` holds the store lock no other process adds or removes a file. */
  lemma OthersLeaveTheDirectory(s: State, turn: Turn, p: Proc, s': State)
    requires Inv(s) && Next(s, turn.step, turn.who, s') && turn.who != p && HoldsStore(At(s, p))
    requires !(turn.step.Otherwise? && turn.step.o.PowerLoss?)
    ensures s'.seen == s.seen && At(s', p) == At(s, p)
  {
    assert s.store == Some(p) && !HoldsStore(At(s, turn.who));
  }

  predicate Writes(turn: Turn, p: Proc) { turn.who == p && turn.step.ByArchive? && turn.step.a.AWriteFile? }

  lemma QuietTurn(turns: seq<Turn>, p: Proc, a: nat, k: nat)
    requires a <= k < |turns| && !Writes(turns[k], p) && !(turns[k].who == p && SkipsCleanup(turns[k].step))
    ensures forall n :: WroteOnly(turns, p, a, k + 1, n) <==> WroteOnly(turns, p, a, k, n)
    ensures WroteNothing(turns, p, a, k + 1) <==> WroteNothing(turns, p, a, k)
    ensures Skipped(turns, p, a, k + 1) <==> Skipped(turns, p, a, k)
  {
    OneMoreTurn(turns, p, a, k);
    hide Wrote, Skipped;
  }

  lemma WritingTurn(turns: seq<Turn>, p: Proc, a: nat, k: nat, name: Name)
    requires a <= k < |turns| && turns[k] == Turn(ByArchive(AWriteFile(name)), p) && WroteNothing(turns, p, a, k)
    ensures WroteOnly(turns, p, a, k + 1, name) && !Skipped(turns, p, a, k + 1)
  {
    OneMoreTurn(turns, p, a, k);
    hide Wrote, Skipped;
  }

  lemma SkippingTurn(turns: seq<Turn>, p: Proc, a: nat, k: nat, name: Name)
    requires a <= k < |turns| && turns[k].who == p && SkipsCleanup(turns[k].step) && WroteOnly(turns, p, a, k, name)
    ensures WroteOnly(turns, p, a, k + 1, name) && Skipped(turns, p, a, k + 1)
  {
    OneMoreTurn(turns, p, a, k);
    hide Wrote, Skipped;
  }

  lemma OwnTurnKeepsStanding(s: State, turns: seq<Turn>, p: Proc, a: nat, k: nat, s': State)
    requires Formed(s) && a < k < |turns| && turns[k].step.ByArchive? && turns[k].who == p
    requires ArchiveStep(s, turns[k].step.a, p, s') && turns[k].step.a != ACommit
    requires At(s, p) != Idle && Standing(s, turns, p, a, k)
    ensures Standing(s', turns, p, a, k + 1)
  {
    hide WroteOnly, WroteNothing, Skipped;
    match turns[k].step.a
    case AWriteFile(name) => WritingTurn(turns, p, a, k, name);
    case ASyncFails =>
      SkippingTurn(turns, p, a, k, At(s, p).name);
      assert Left(s', turns, p, a, k + 1, At(s, p).name);
    case AReportFails =>
      SkippingTurn(turns, p, a, k, At(s, p).name);
      assert Left(s', turns, p, a, k + 1, At(s, p).name);
    case ARemovalFails =>
      SkippingTurn(turns, p, a, k, At(s, p).name);
      assert Left(s', turns, p, a, k + 1, At(s, p).name);
    case ARemoveStray =>
      QuietTurn(turns, p, a, k);
      assert Left(s', turns, p, a, k + 1, At(s, p).name);
    case AUnlock =>
      QuietTurn(turns, p, a, k);
      var name :| Left(s, turns, p, a, k, name);
      assert Left(s', turns, p, a, k + 1, name);
    case _ => QuietTurn(turns, p, a, k);
  }

  /** Turns that are not the archive's own, or that end it before a file was written. */
  lemma OtherTurnKeepsStanding(s: State, turns: seq<Turn>, p: Proc, a: nat, k: nat, s': State)
    requires a < k < |turns| && Standing(s, turns, p, a, k) && !Writes(turns[k], p)
    requires !(turns[k].who == p && SkipsCleanup(turns[k].step)) && s'.seen == s.seen
    requires At(s', p) == At(s, p) || (At(s', p) == Idle && (At(s, p).ALocked? || At(s, p).AWriting?))
    ensures Standing(s', turns, p, a, k + 1)
  {
    hide WroteOnly, WroteNothing, Skipped;
    QuietTurn(turns, p, a, k);
    if At(s, p).ACleaned? || (At(s, p) == Idle && !WroteNothing(turns, p, a, k)) {
      var name :| Left(s, turns, p, a, k, name);
      assert Left(s', turns, p, a, k + 1, name);
    }
  }

  /** What a process in the middle of an archive can do: go on with it, or stop before it has written anything. */
  lemma OwnTurns(s: State, step: Step, p: Proc, s': State)
    requires Formed(s) && Next(s, step, p, s') && HoldsStore(At(s, p)) && !step.ByArchive?
    requires At(s, p).ALocked? || At(s, p).AWriting? || At(s, p).AFileOut? || At(s, p).AFileSynced?
             || At(s, p).AAbandoned? || At(s, p).ACleaned?
    requires step != Otherwise(Die) && !(step.Otherwise? && step.o.PowerLoss?)
    ensures s'.seen == s.seen
    ensures At(s', p) == At(s, p) || (At(s', p) == Idle && (At(s, p).ALocked? || At(s, p).AWriting?))
  {
  }

  lemma TurnKeepsStanding(s: State, turns: seq<Turn>, p: Proc, a: nat, k: nat, s': State)
    requires Inv(s) && a < k < |turns| && Next(s, turns[k].step, turns[k].who, s')
    requires At(s, p) != Idle && Standing(s, turns, p, a, k) && Fails(turns, p, k, k + 1)
    ensures Standing(s', turns, p, a, k + 1)
  {
    if turns[k].who == p && turns[k].step.ByArchive? {
      hide Inv, ArchiveStep, WroteOnly, WroteNothing, Skipped;
      OwnTurnKeepsStanding(s, turns, p, a, k, s');
    } else {
      if turns[k].who == p { OwnTurns(s, turns[k].step, p, s'); } else { OthersLeaveTheDirectory(s, turns[k], p, s'); }
      hide Inv, Next, Standing, WroteOnly, WroteNothing, Skipped;
      OtherTurnKeepsStanding(s, turns, p, a, k, s');
    }
  }

  lemma AttemptBegins(s: State, turns: seq<Turn>, p: Proc, a: nat, s': State)
    requires Formed(s) && a < |turns| && turns[a].who == p && turns[a].step.ByArchive? && turns[a].step.a.ALock?
    requires Next(s, turns[a].step, p, s')
    ensures Standing(s', turns, p, a, a + 1)
  {
  }

  lemma {:induction false} AttemptStands(run: seq<State>, turns: seq<Turn>, p: Proc, a: nat, b: nat, k: nat)
    requires IsRun(run, turns) && |run| == |turns| + 1
    requires Attempts(run, turns, p, a, b) && Fails(turns, p, a, b) && a < k <= b
    ensures Standing(run[k], turns, p, a, k)
  {
    hide IsRun, Standing, Fails, Attempts;
    if k == a + 1 {
      FirstTurnStands(run, turns, p, a, b);
    } else {
      AttemptStands(run, turns, p, a, b, k - 1);
      NextTurnStands(run, turns, p, a, b, k - 1);
    }
  }

  lemma FirstTurnStands(run: seq<State>, turns: seq<Turn>, p: Proc, a: nat, b: nat)
    requires IsRun(run, turns) && |run| == |turns| + 1
    requires Attempts(run, turns, p, a, b) && Fails(turns, p, a, b)
    ensures Standing(run[a + 1], turns, p, a, a + 1)
  {
    hide IsRun, Inv, Next, Standing, Fails, At;
    DuringTheAttempt(run, turns, p, a, b, a);
    RunTurn(run, turns, a);
    AttemptBegins(run[a], turns, p, a, run[a + 1]);
  }

  lemma NextTurnStands(run: seq<State>, turns: seq<Turn>, p: Proc, a: nat, b: nat, i: nat)
    requires IsRun(run, turns) && |run| == |turns| + 1
    requires Attempts(run, turns, p, a, b) && Fails(turns, p, a, b) && a < i < b
    requires Standing(run[i], turns, p, a, i)
    ensures Standing(run[i + 1], turns, p, a, i + 1)
  {
    hide IsRun, Inv, Next, Standing, Fails, At;
    DuringTheAttempt(run, turns, p, a, b, i);
    RunTurn(run, turns, i);
    RunKeepsInv(run, turns, i);
    TurnKeepsStanding(run[i], turns, p, a, i, run[i + 1]);
  }

  lemma DuringTheAttempt(run: seq<State>, turns: seq<Turn>, p: Proc, a: nat, b: nat, i: nat)
    requires |run| == |turns| + 1 && Attempts(run, turns, p, a, b) && Fails(turns, p, a, b) && a <= i < b
    ensures turns[a].who == p && turns[a].step.ByArchive? && turns[a].step.a.ALock?
    ensures a < i ==> At(run[i], p) != Idle
    ensures Fails(turns, p, i, i + 1)
  {
  }

  /**
    The module comment of the source promises that a failed archive leaves no
    file behind. In every run, an archive that ends without commit, death of its
    process or power loss has written at most one file, and leaves it behind
    exactly when the directory sync or the report after the rename failed, or
    the removal did.
  */
  lemma StrayFileIsExact(run: seq<State>, turns: seq<Turn>, p: Proc, a: nat, b: nat)
    requires IsRun(run, turns) && Attempts(run, turns, p, a, b) && Fails(turns, p, a, b)
    ensures (exists n :: Wrote(turns, p, a, b, n) && n in run[b].seen) <==> Skipped(turns, p, a, b)
    ensures forall m, n :: Wrote(turns, p, a, b, m) && Wrote(turns, p, a, b, n) ==> m == n
  {
    AttemptStands(run, turns, p, a, b, b);
    hide Wrote, Skipped;
    if !WroteNothing(turns, p, a, b) {
      var name :| Left(run[b], turns, p, a, b, name);
      assert Wrote(turns, p, a, b, name);
    }
  }

  // ---- Two limits of the protocol ----

  const OLD := Project(1, "OLD", "")

  ghost function Before(hash: Project -> string): State {
    State(hash, [Db(map[1 := OLD], map[], 1, {1})], 0, map[], map[], None, None, map[])
  }

  ghost function Writing(hash: Project -> string): State {
    Move(Move(Before(hash), 0, ALocked(1)).(store := Some(0)), 0, AWriting(1)).(writer := Some(0))
  }

  lemma LocksAndBegins(hash: Project -> string)
    ensures Init(Before(hash)) && Formed(Before(hash))
    ensures var locked := Move(Before(hash), 0, ALocked(1)).(store := Some(0));
            && Formed(locked) && ArchiveStep(Before(hash), ALock(1), 0, locked)
            && ArchiveStep(locked, ABegin, 0, Writing(hash))
  {
    assert Conserved(Before(hash).history[0]);
  }

  lemma WritesAndFails(hash: Project -> string)
    ensures var wrote := Move(Writing(hash), 0, AFileOut(OLD, "f")).(seen := map["f" := OLD]);
            var failed := Move(wrote, 0, Idle).(store := None, writer := None);
            && Formed(Writing(hash)) && Formed(wrote) && Formed(failed) && "f" in failed.seen
            && ArchiveStep(Writing(hash), AWriteFile("f"), 0, wrote) && ArchiveStep(wrote, ASyncFails, 0, failed)
  {
  }

  /** A run in which the directory sync after the rename fails: the project stays live and its stray file stays too. */
  lemma FailedArchiveMayLeaveItsFile(hash: Project -> string)
    returns (run: seq<State>, turns: seq<Turn>)
    ensures IsRun(run, turns) && |turns| == 4 && turns[3].step == ByArchive(ASyncFails)
    ensures run[4].history == run[0].history && run[0].seen == map[] && run[4].seen != map[]
  {
    var s0, s2 := Before(hash), Writing(hash);
    var s1 := Move(s0, 0, ALocked(1)).(store := Some(0));
    var s3 := Move(s2, 0, AFileOut(OLD, "f")).(seen := map["f" := OLD]);
    var s4 := Move(s3, 0, Idle).(store := None, writer := None);
    run := [s0, s1, s2, s3, s4];
    turns := [Turn(ByArchive(ALock(1)), 0), Turn(ByArchive(ABegin), 0), Turn(ByArchive(AWriteFile("f")), 0),
              Turn(ByArchive(ASyncFails), 0)];
    assert "f" in s4.seen;
    hide ArchiveStep, Init, Formed;
    LocksAndBegins(hash);
    WritesAndFails(hash);
    FourTurns(run, turns);
  }

  lemma FourTurns(run: seq<State>, turns: seq<Turn>)
    requires |run| == 5 && |turns| == 4 && Init(run[0]) && forall i :: 0 <= i < 5 ==> Formed(run[i])
    requires Next(run[0], turns[0].step, turns[0].who, run[1]) && Next(run[1], turns[1].step, turns[1].who, run[2])
    requires Next(run[2], turns[2].step, turns[2].who, run[3]) && Next(run[3], turns[3].step, turns[3].who, run[4])
    ensures IsRun(run, turns)
  {
    hide Next, Init;
  }

  /** Why the removal waits for a checkpoint: without one, a power loss brings back a row whose file is gone. */
  lemma RemovalBeforeCheckpointLosesTheProject(hash: Project -> string)
    returns (s: State, removed: State, after: State)
    ensures Inv(s) && At(s, 0).UCommitted? && s.durable < At(s, 0).at
    ensures removed == s.(seen := s.seen - {At(s, 0).name}, disk := s.seen - {At(s, 0).name})
    ensures EnvironmentStep(removed, PowerLoss(0, map[]), 0, after)
    ensures 1 in Current(after).known && 1 !in Current(after).live
    ensures !ListedIntact(hash, Current(after), after.seen, 1)
  {
    var before := Db(map[], map[0 := Row("f", hash(OLD), OLD)], 1, {1});
    s := Unsettled(hash);
    removed := s.(seen := s.seen - {"f"}, disk := s.seen - {"f"});
    after := State(hash, [before], 0, map[], map[], None, None, map[]);
    UnsettledKeepsInv(hash);
    hide Inv;
    assert removed.history[..1] == [before];
  }

  /** An unarchive has committed, no checkpoint has followed. */
  ghost function Unsettled(hash: Project -> string): State {
    State(hash, [Db(map[], map[0 := Row("f", hash(OLD), OLD)], 1, {1}), Db(map[1 := OLD], map[], 1, {1})], 0,
          map["f" := OLD], map["f" := OLD], None, None, map[0 := UCommitted("f", 1)])
  }

  lemma UnsettledKeepsInv(hash: Project -> string)
    ensures Inv(Unsettled(hash))
  {
    OneRowConserved(hash, Unsettled(hash).history[0]);
    assert Conserved(Unsettled(hash).history[1]);
    hide Conserved;
  }

  lemma OneRowConserved(hash: Project -> string, db: Db)
    requires db == Db(map[], map[0 := Row("f", hash(OLD), OLD)], 1, {1})
    ensures Conserved(db) && Backed(hash, db, map["f" := OLD], map["f" := OLD])
  {
    assert ListsKey(db, 1) by { assert 0 in db.listed; }
  }

  /** Why the commit waits for the sync of the directory: without it, a power loss keeps the row and loses the file. */
  lemma CommitBeforeSyncLosesTheProject(hash: Project -> string) returns (s: State, after: State)
    ensures Inv(s) && At(s, 0) == AFileOut(OLD, "f") && s.seen == map["f" := OLD] && s.disk == map[]
    ensures var listed := Db(map[], map[0 := Row("f", hash(OLD), OLD)], 1, {1});
            && EnvironmentStep(Commit(s, listed), PowerLoss(1, map[]), 0, after)
            && 1 in Current(after).known && 1 !in Current(after).live
    ensures !ListedIntact(hash, Current(after), after.seen, 1)
  {
    s := Move(Writing(hash), 0, AFileOut(OLD, "f")).(seen := map["f" := OLD]);
    var listed := Db(map[], map[0 := Row("f", hash(OLD), OLD)], 1, {1});
    after := State(hash, s.history + [listed], 1, map[], map[], None, None, map[]);
    FileOutKeepsInv(hash);
    hide Inv;
    assert Commit(s, listed).history[..2] == after.history;
  }

  lemma FileOutKeepsInv(hash: Project -> string)
    ensures Inv(Move(Writing(hash), 0, AFileOut(OLD, "f")).(seen := map["f" := OLD]))
  {
    var s := Move(Writing(hash), 0, AFileOut(OLD, "f")).(seen := map["f" := OLD]);
    assert Conserved(s.history[0]);
    assert forall p: Proc :: At(s, p) == if p == 0 then AFileOut(OLD, "f") else Idle;
  }

  // ---- No lock is left behind ----

  /** Who a lock names is where it is held. */
  ghost predicate LocksHeld(s: State) {
    && (s.store.Some? ==> HoldsStore(At(s, s.store.value)))
    && (s.writer.Some? ==> HoldsWriter(At(s, s.writer.value)))
  }

  lemma ArchiveKeepsLocksHeld(s: State, step: ArchiveAction, p: Proc, s': State)
    requires Formed(s) && LocksOk(s) && LocksHeld(s) && ArchiveStep(s, step, p, s')
    ensures LocksHeld(s')
  {
    hide Lists;
    assert HoldsStore(At(s, p)) ==> s.store == Some(p);
    assert HoldsWriter(At(s, p)) ==> s.writer == Some(p);
  }

  lemma UnarchiveKeepsLocksHeld(s: State, step: UnarchiveAction, p: Proc, s': State)
    requires Formed(s) && LocksOk(s) && LocksHeld(s) && UnarchiveStep(s, step, p, s')
    ensures LocksHeld(s')
  {
    hide Lists, TakesIdentifier;
    assert HoldsStore(At(s, p)) ==> s.store == Some(p);
    assert HoldsWriter(At(s, p)) ==> s.writer == Some(p);
  }

  lemma EnvironmentKeepsLocksHeld(s: State, step: OtherAction, p: Proc, s': State)
    requires Formed(s) && LocksHeld(s) && EnvironmentStep(s, step, p, s')
    ensures LocksHeld(s')
  {
    hide Settles, TakesIdentifier, HoldsStore, HoldsWriter;
  }

  lemma StepKeepsLocksHeld(s: State, step: Step, p: Proc, s': State)
    requires Formed(s) && LocksOk(s) && LocksHeld(s) && Next(s, step, p, s')
    ensures LocksHeld(s')
  {
    hide LocksHeld, ArchiveStep, UnarchiveStep, EnvironmentStep, LocksOk;
    match step
    case ByArchive(a) => ArchiveKeepsLocksHeld(s, a, p, s');
    case ByUnarchive(u) => UnarchiveKeepsLocksHeld(s, u, p, s');
    case Otherwise(o) => EnvironmentKeepsLocksHeld(s, o, p, s');
  }

  lemma {:induction false} RunKeepsLocksHeld(run: seq<State>, turns: seq<Turn>, i: nat)
    requires IsRun(run, turns) && i < |run|
    ensures LocksHeld(run[i])
  {
    hide IsRun, Next, Inv, LocksHeld, LocksOk;
    if i == 0 {
      NoLocksAtFirst(run, turns);
    } else {
      assert |run| == |turns| + 1 by { RunLength(run, turns); }
      RunTurn(run, turns, i - 1);
      RunKeepsInv(run, turns, i - 1);
      LocksOfInv(run[i - 1]);
      RunKeepsLocksHeld(run, turns, i - 1);
      StepKeepsLocksHeld(run[i - 1], turns[i - 1].step, turns[i - 1].who, run[i]);
    }
  }

  lemma NoLocksAtFirst(run: seq<State>, turns: seq<Turn>)
    requires IsRun(run, turns)
    ensures LocksHeld(run[0])
  {
  }

  lemma LocksOfInv(s: State)
    requires Inv(s)
    ensures LocksOk(s)
  {
  }

  /** In every run a taken lock has a holder that is inside: nothing leaks one, and a crash frees it. */
  lemma NoLockIsLeftBehind(run: seq<State>, turns: seq<Turn>, i: nat)
    requires IsRun(run, turns) && i < |run|
    ensures run[i].store.Some? ==> HoldsStore(At(run[i], run[i].store.value))
    ensures run[i].writer.Some? ==> HoldsWriter(At(run[i], run[i].writer.value))
  {
    hide IsRun;
    RunKeepsLocksHeld(run, turns, i);
  }

  // ---- Progress ----

  /** The run, continued by `p` alone. */
  ghost predicate Continues(run: seq<State>, turns: seq<Turn>, p: Proc, run': seq<State>, turns': seq<Turn>) {
    && IsRun(run', turns') && run <= run' && turns <= turns'
    && forall i :: |turns| <= i < |turns'| ==> turns'[i].who == p && !turns'[i].step.Otherwise?
  }

  lemma Stand(run: seq<State>, turns: seq<Turn>, p: Proc)
    requires IsRun(run, turns)
    ensures Continues(run, turns, p, run, turns) && |run| == |turns| + 1 && Formed(run[|turns|])
  {
  }

  /** One more turn of `p`. */
  lemma Go(
      run: seq<State>, turns: seq<Turn>, p: Proc, before: seq<State>, past: seq<Turn>, step: Step, s': State)
    returns (run': seq<State>, turns': seq<Turn>)
    requires Continues(run, turns, p, before, past) && |before| == |past| + 1 && Formed(before[|past|]) && Formed(s')
    requires Next(before[|past|], step, p, s') && !step.Otherwise?
    ensures Continues(run, turns, p, run', turns') && |run'| == |turns'| + 1 && run'[|turns'|] == s'
    ensures |turns'| == |past| + 1 && past <= turns' && turns'[|past|] == Turn(step, p)
  {
    hide Next, Init;
    run', turns' := before + [s'], past + [Turn(step, p)];
  }

  /** Both locks are free and `p` has nothing under way. */
  ghost predicate AtRest(s: State, p: Proc) { At(s, p) == Idle && s.store == None && s.writer == None }

  ghost predicate IdentifierFree(db: Db, identifier: string) {
    forall k :: k in db.live ==> db.live[k].identifier != identifier
  }

  lemma ListedIsThere(s: State, id: RowId)
    requires Inv(s) && id in Current(s).listed
    ensures var row := Current(s).listed[id];
            row.file in s.seen && s.seen[row.file] == row.project && s.hash(row.project) == row.sha256
  {
    assert Backed(s.hash, Current(s), s.seen, s.disk);
  }

  ghost function RowGone(db: Db, id: RowId): Db
    requires id in db.listed
  {
    var project := db.listed[id].project;
    db.(live := db.live[project.key := project], listed := db.listed - {id})
  }

  lemma ReadsAndStages(s: State, p: Proc, id: RowId)
    requires Inv(s) && At(s, p) == Idle && id in Current(s).listed
    ensures var row := Current(s).listed[id];
            var s1, s2 := Move(s, p, URow(id, row)), Move(s, p, UChecked(id, row));
            && UnarchiveStep(s, UReadRow(id), p, s1) && UnarchiveStep(s1, UCheck, p, s2)
            && UnarchiveStep(s2, UStage, p, Move(s, p, UStaged(id, row, row.project)))
  {
    ListedIsThere(s, id);
    hide Inv;
  }

  lemma LocksAndOpens(s: State, p: Proc, id: RowId, row: Row, file: Project)
    requires Formed(s) && s.store == None && s.writer == None
    ensures var s3, s4 := Move(s, p, UStaged(id, row, file)), Move(s, p, ULocked(id, row, file)).(store := Some(p));
            && UnarchiveStep(s3, ULock, p, s4)
            && UnarchiveStep(s4, UBegin, p, Move(s, p, UWriting(id, row, file)).(store := Some(p), writer := Some(p)))
  {
  }

  /** Up to the transaction of the import. */
  lemma UnarchiveGetsToWriting(run: seq<State>, turns: seq<Turn>, p: Proc, id: RowId)
    returns (run': seq<State>, turns': seq<Turn>)
    requires IsRun(run, turns) && |run| == |turns| + 1 && Formed(run[|turns|])
    requires AtRest(run[|turns|], p) && id in Current(run[|turns|]).listed
    ensures Continues(run, turns, p, run', turns') && |run'| == |turns'| + 1
    ensures var s := run[|turns|];
            var row := Current(s).listed[id];
            run'[|turns'|] == Move(s, p, UWriting(id, row, row.project)).(store := Some(p), writer := Some(p))
  {
    var s := run[|turns|];
    var row := Current(s).listed[id];
    RunKeepsInv(run, turns, |turns|);
    hide Inv, IsRun, UnarchiveStep;
    var s1 := Move(s, p, URow(id, row));
    var s2 := Move(s, p, UChecked(id, row));
    var s3 := Move(s, p, UStaged(id, row, row.project));
    var s4 := Move(s, p, ULocked(id, row, row.project)).(store := Some(p));
    var s5 := Move(s, p, UWriting(id, row, row.project)).(store := Some(p), writer := Some(p));
    ReadsAndStages(s, p, id);
    LocksAndOpens(s, p, id, row, row.project);
    hide Continues;
    Stand(run, turns, p);
    run', turns' := Go(run, turns, p, run, turns, ByUnarchive(UReadRow(id)), s1);
    run', turns' := Go(run, turns, p, run', turns', ByUnarchive(UCheck), s2);
    run', turns' := Go(run, turns, p, run', turns', ByUnarchive(UStage), s3);
    run', turns' := Go(run, turns, p, run', turns', ByUnarchive(ULock), s4);
    run', turns' := Go(run, turns, p, run', turns', ByUnarchive(UBegin), s5);
  }

  lemma CheckpointsAndRelocks(s: State, p: Proc, name: Name, at: nat)
    requires Formed(s) && At(s, p) == UCommitted(name, at) && s.store == None && s.writer == None
    ensures var last := |s.history| - 1;
            var s1 := Move(s, p, UDurable(name, at)).(durable := last);
            && UnarchiveStep(s, UCheckpoint, p, s1)
            && UnarchiveStep(s1, URelock, p, Move(s, p, URemoving(name, at)).(durable := last, store := Some(p)))
  {
  }

  lemma RemovesAndUnlocks(s: State, p: Proc, name: Name, at: nat)
    requires Formed(s) && s.store == None
    ensures var gone, last := s.seen - {name}, |s.history| - 1;
            var s2 := Move(s, p, URemoving(name, at)).(durable := last, store := Some(p));
            var s3 := Move(s, p, URemoved).(durable := last, store := Some(p), seen := gone);
            && UnarchiveStep(s2, URemove, p, s3)
            && UnarchiveStep(s3, UUnlock, p, Move(s, p, Idle).(durable := last, seen := gone, disk := gone))
  {
  }

  /** From the commit on: the checkpoint, and the file goes. */
  lemma UnarchiveGetsToTheEnd(
      run: seq<State>, turns: seq<Turn>, before: seq<State>, past: seq<Turn>, p: Proc, name: Name, at: nat)
    returns (run': seq<State>, turns': seq<Turn>)
    requires Continues(run, turns, p, before, past) && |before| == |past| + 1 && Formed(before[|past|])
    requires var s := before[|past|]; At(s, p) == UCommitted(name, at) && s.store == None && s.writer == None
    ensures Continues(run, turns, p, run', turns') && |run'| == |turns'| + 1
    ensures var s := before[|past|];
            var gone := s.seen - {name};
            run'[|turns'|] == Move(s, p, Idle).(durable := |s.history| - 1, seen := gone, disk := gone)
  {
    var s := before[|past|];
    var gone, last := s.seen - {name}, |s.history| - 1;
    var s1 := Move(s, p, UDurable(name, at)).(durable := last);
    var s2 := Move(s, p, URemoving(name, at)).(durable := last, store := Some(p));
    var s3 := Move(s, p, URemoved).(durable := last, store := Some(p), seen := gone);
    var s4 := Move(s, p, Idle).(durable := last, seen := gone, disk := gone);
    hide UnarchiveStep, Continues;
    CheckpointsAndRelocks(s, p, name, at);
    RemovesAndUnlocks(s, p, name, at);
    run', turns' := Go(run, turns, p, before, past, ByUnarchive(UCheckpoint), s1);
    run', turns' := Go(run, turns, p, run', turns', ByUnarchive(URelock), s2);
    run', turns' := Go(run, turns, p, run', turns', ByUnarchive(URemove), s3);
    run', turns' := Go(run, turns, p, run', turns', ByUnarchive(UUnlock), s4);
  }

  lemma UnarchiveCommits(s: State, p: Proc, id: RowId, s': State)
    requires Formed(s) && id in Current(s).listed && IdentifierFree(Current(s), Current(s).listed[id].project.identifier)
    requires var row := Current(s).listed[id]; At(s, p) == UWriting(id, row, row.project)
    requires s' == Commit(Move(s, p, UCommitted(Current(s).listed[id].file, |s.history|)).(store := None, writer := None),
                          RowGone(Current(s), id))
    ensures UnarchiveStep(s, UCommit, p, s') && Formed(s')
  {
  }

  /**
    A listed project can come back. From every state of every run in which no
    live project has its identifier, the locks are free and some process is idle,
    that process alone can go on to a state where the project is live, its row is
    gone, nothing else in the database has changed, the commit is durable and the
    file is removed.
  */
  lemma UnarchiveCanFinish(run: seq<State>, turns: seq<Turn>, p: Proc, id: RowId)
    returns (run': seq<State>, turns': seq<Turn>)
    requires IsRun(run, turns) && |run| == |turns| + 1 && Formed(run[|turns|])
    requires AtRest(run[|turns|], p) && id in Current(run[|turns|]).listed
    requires IdentifierFree(Current(run[|turns|]), Current(run[|turns|]).listed[id].project.identifier)
    ensures Continues(run, turns, p, run', turns') && |run'| == |turns'| + 1 && Formed(run'[|turns'|])
    ensures var s, s' := run[|turns|], run'[|turns'|];
            var row := Current(s).listed[id];
            && Current(s') == RowGone(Current(s), id) && s'.durable == |s'.history| - 1
            && s'.seen == s.seen - {row.file} && s'.disk == s'.seen && AtRest(s', p)
  {
    var s := run[|turns|];
    var row := Current(s).listed[id];
    run', turns' := UnarchiveGetsToWriting(run, turns, p, id);
    var w := run'[|turns'|];
    var c := Commit(Move(w, p, UCommitted(row.file, |s.history|)).(store := None, writer := None), RowGone(Current(s), id));
    UnarchiveCommits(w, p, id, c);
    hide IsRun, UnarchiveStep, Continues;
    run', turns' := Go(run, turns, p, run', turns', ByUnarchive(UCommit), c);
    run', turns' := UnarchiveGetsToTheEnd(run, turns, run', turns', p, row.file, |s.history|);
  }

  /** In a run, the commit of an unarchive is refused exactly when the identifier is taken or the row is gone. */
  lemma UnarchiveRefusesExactly(run: seq<State>, turns: seq<Turn>, k: nat, p: Proc)
    requires IsRun(run, turns) && k < |run| && At(run[k], p).UWriting?
    ensures Formed(run[k])
    ensures (exists s' :: UnarchiveStep(run[k], UCommit, p, s')) <==>
              var db, pc := Current(run[k]), At(run[k], p);
              pc.id in db.listed && forall k :: k in db.live ==> db.live[k].identifier != db.listed[pc.id].project.identifier
  {
    RunKeepsInv(run, turns, k);
    var s, pc := run[k], At(run[k], p);
    assert PcOk(s, pc);
    if pc.id in Current(s).listed && IdentifierFree(Current(s), Current(s).listed[pc.id].project.identifier) {
      var s' := Commit(Move(s, p, UCommitted(pc.row.file, |s.history|)).(store := None, writer := None),
                       RowGone(Current(s), pc.id));
      UnarchiveCommits(s, p, pc.id, s');
    }
  }

  /**
    A file that is missing or does not match its recorded checksum, whatever
    became of it, is never imported: all an unarchive can do then is give up.
  */
  lemma DamagedFileIsRefused(s: State, step: Step, p: Proc, s': State)
    requires Formed(s) && At(s, p).URow?
    requires var row := At(s, p).row; row.file !in s.seen || s.hash(s.seen[row.file]) != row.sha256
    requires Next(s, step, p, s') && At(s', p) != At(s, p)
    ensures At(s', p) == Idle && (s'.history == s.history || exists n: nat :: 0 < n < |s.history| && s'.history == s.history[..n])
  {
  }

  /** A name no file has. */
  lemma FreeName(dir: Dir) returns (name: Name)
    ensures name !in dir
  {
    name := FreshString(dir.Keys);
  }

  /** Up to the sync of the new file. */
  lemma ArchiveGetsToSynced(run: seq<State>, turns: seq<Turn>, p: Proc, key: Key, name: Name)
    returns (run': seq<State>, turns': seq<Turn>)
    requires IsRun(run, turns) && |run| == |turns| + 1 && Formed(run[|turns|])
    requires AtRest(run[|turns|], p) && key in Current(run[|turns|]).live && name !in run[|turns|].seen
    ensures Continues(run, turns, p, run', turns') && |run'| == |turns'| + 1
    ensures var s := run[|turns|];
            var project := Current(s).live[key];
            run'[|turns'|] == Move(s, p, AFileSynced(project, name)).(
              store := Some(p), writer := Some(p), seen := s.seen[name := project], disk := s.seen[name := project])
  {
    var s := run[|turns|];
    var project := Current(s).live[key];
    var grown := s.seen[name := project];
    var s1 := Move(s, p, ALocked(key)).(store := Some(p));
    var s2 := Move(s, p, AWriting(key)).(store := Some(p), writer := Some(p));
    var s3 := Move(s, p, AFileOut(project, name)).(store := Some(p), writer := Some(p), seen := grown);
    var s4 := Move(s, p, AFileSynced(project, name)).(store := Some(p), writer := Some(p), seen := grown, disk := grown);
    assert ArchiveStep(s, ALock(key), p, s1) && ArchiveStep(s1, ABegin, p, s2);
    assert ArchiveStep(s2, AWriteFile(name), p, s3) && ArchiveStep(s3, ASync, p, s4);
    hide ArchiveStep, IsRun, Continues;
    Stand(run, turns, p);
    run', turns' := Go(run, turns, p, run, turns, ByArchive(ALock(key)), s1);
    run', turns' := Go(run, turns, p, run', turns', ByArchive(ABegin), s2);
    run', turns' := Go(run, turns, p, run', turns', ByArchive(AWriteFile(name)), s3);
    run', turns' := Go(run, turns, p, run', turns', ByArchive(ASync), s4);
  }

  lemma ArchiveCommits(s: State, p: Proc, project: Project, name: Name, s': State)
    requires Formed(s) && At(s, p) == AFileSynced(project, name) && name in s.seen && s.seen[name] == project
    requires !Lists(Current(s), name)
    requires var db := Current(s);
             s' == Commit(Move(s, p, Idle).(store := None, writer := None),
                          db.(live := db.live - {project.key}, nextRow := db.nextRow + 1,
                              listed := db.listed[db.nextRow := Row(name, s.hash(project), project)]))
    ensures ArchiveStep(s, ACommit, p, s') && Formed(s')
  {
  }

  /**
    A live project can be archived. From every state of every run in which the
    locks are free and some process is idle, that process alone can go on to a
    state where exactly this project has moved into one new row, whose file is on
    disk with the recorded checksum.
  */
  lemma ArchiveCanFinish(run: seq<State>, turns: seq<Turn>, p: Proc, key: Key)
    returns (run': seq<State>, turns': seq<Turn>, name: Name)
    requires IsRun(run, turns) && |run| == |turns| + 1 && Formed(run[|turns|])
    requires AtRest(run[|turns|], p) && key in Current(run[|turns|]).live
    ensures Continues(run, turns, p, run', turns') && |run'| == |turns'| + 1 && Formed(run'[|turns'|])
    ensures var s, s' := run[|turns|], run'[|turns'|];
            var db, project := Current(s), Current(s).live[key];
            && name !in s.seen && s'.seen == s.seen[name := project] && s'.disk == s'.seen && AtRest(s', p)
            && db.nextRow !in db.listed && Current(s').live == db.live - {key} && Current(s').known == db.known
            && Current(s').listed == db.listed[db.nextRow := Row(name, s.hash(project), project)]
  {
    var s := run[|turns|];
    var db := Current(s);
    RunKeepsInv(run, turns, |turns|);
    assert Conserved(db);
    name := FreeName(s.seen);
    SeenIsUnlisted(s, name);
    run', turns' := ArchiveGetsToSynced(run, turns, p, key, name);
    var w := run'[|turns'|];
    var project := db.live[key];
    var c := Commit(Move(w, p, Idle).(store := None, writer := None),
                    db.(live := db.live - {key}, nextRow := db.nextRow + 1,
                        listed := db.listed[db.nextRow := Row(name, s.hash(project), project)]));
    assert project.key == key;
    ArchiveCommits(w, p, project, name, c);
    hide IsRun, ArchiveStep, Continues, Inv;
    run', turns' := Go(run, turns, p, run', turns', ByArchive(ACommit), c);
  }

  /** An archive that fails after its file is out can still leave everything as it was. */
  lemma ArchiveCanBeUndone(run: seq<State>, turns: seq<Turn>, p: Proc, key: Key)
    returns (run': seq<State>, turns': seq<Turn>)
    requires IsRun(run, turns) && |run| == |turns| + 1 && Formed(run[|turns|])
    requires AtRest(run[|turns|], p) && key in Current(run[|turns|]).live
    ensures Continues(run, turns, p, run', turns') && |run'| == |turns'| + 1
    ensures exists i: nat :: |turns| <= i < |turns'| && turns'[i].step == ByArchive(AFail)
    ensures run'[|turns'|] == Move(run[|turns|], p, Idle).(disk := run[|turns|].seen)
  {
    var s := run[|turns|];
    var name := FreeName(s.seen);
    var project := Current(s).live[key];
    run', turns' := ArchiveGetsToSynced(run, turns, p, key, name);
    var w := run'[|turns'|];
    var a := Move(w, p, AAbandoned(name)).(writer := None);
    var b := Move(a, p, ACleaned).(seen := a.seen - {name});
    var e := Move(b, p, Idle).(store := None, disk := b.seen);
    assert b.seen == s.seen;
    CleansUp(w, p, project, name);
    hide IsRun, ArchiveStep;
    var i := |turns'|;
    assert |turns| <= i;
    run', turns' := Go(run, turns, p, run', turns', ByArchive(AFail), a);
    run', turns' := Go(run, turns, p, run', turns', ByArchive(ARemoveStray), b);
    run', turns' := Go(run, turns, p, run', turns', ByArchive(AUnlock), e);
    assert turns'[i].step == ByArchive(AFail);
  }

  lemma CleansUp(w: State, p: Proc, project: Project, name: Name)
    requires Formed(w) && At(w, p) == AFileSynced(project, name)
    ensures var a := Move(w, p, AAbandoned(name)).(writer := None);
            var b := Move(a, p, ACleaned).(seen := a.seen - {name});
            && ArchiveStep(w, AFail, p, a) && ArchiveStep(a, ARemoveStray, p, b)
            && ArchiveStep(b, AUnlock, p, Move(b, p, Idle).(store := None, disk := b.seen))
  {
  }

  // ---- What else may happen ----

  /** Projects may be created under a free identifier, edited and deleted by ordinary writes, between the protocol's own. */
  lemma ProjectsMayChange(s: State, p: Proc, project: Project)
    requires Formed(s) && s.writer == None
    requires forall k :: k in Current(s).live && k != project.key ==> Current(s).live[k].identifier != project.identifier
    ensures var db := Current(s);
            && (project.key !in db.known && project.key !in db.live ==>
                  EnvironmentStep(s, Create(project), p,
                                  Commit(s, db.(live := db.live[project.key := project], known := db.known + {project.key}))))
            && (project.key in db.live ==>
                  && EnvironmentStep(s, Edit(project), p, Commit(s, db.(live := db.live[project.key := project])))
                  && EnvironmentStep(s, Delete(project.key), p,
                                     Commit(s, db.(live := db.live - {project.key}, known := db.known - {project.key}))))
  {
  }

  /** A process may die anywhere, and refuse or fail where nothing has been changed yet; its locks are free again. */
  lemma ProcessesMayStop(s: State, p: Proc, s': State)
    requires Formed(s) && s' == s.(store := s'.store, writer := s'.writer, pcs := s.pcs[p := Idle])
    requires s'.store == if s.store == Some(p) then None else s.store
    requires s'.writer == if s.writer == Some(p) then None else s.writer
    ensures EnvironmentStep(s, Die, p, s')
    ensures var pc := At(s, p);
            !pc.AFileOut? && !pc.AFileSynced? && !pc.AAbandoned? && !pc.ACleaned? && !pc.URemoved? && pc != Idle ==>
              EnvironmentStep(s, Quit, p, s')
  {
  }

  /** What an archive can fail at once its file is out, and both ways its last sync may go. */
  lemma ArchivesMayFail(s: State, p: Proc)
    requires Formed(s)
    ensures var pc := At(s, p);
            var freed := Move(s, p, Idle).(store := None, writer := None);
            && (pc.AFileOut? ==> ArchiveStep(s, ASyncFails, p, freed))
            && (pc.AFileSynced? ==> ArchiveStep(s, AReportFails, p, freed))
            && (pc.AAbandoned? ==> ArchiveStep(s, ARemovalFails, p, Move(s, p, ACleaned)))
            && (pc.ACleaned? ==> ArchiveStep(s, AUnlock, p, Move(s, p, Idle).(store := None)))
            && (pc.URemoved? ==> UnarchiveStep(s, UUnlock, p, Move(s, p, Idle).(store := None)))
  {
  }

  /** Any checkpoint may complete, and the power may fail, with any commits since kept and each name as seen or as synced. */
  lemma PowerMayFail(s: State, p: Proc, kept: nat, after: Dir)
    requires Formed(s) && s.durable <= kept < |s.history|
    requires forall n :: n in after ==> (n in s.seen && after[n] == s.seen[n]) || (n in s.disk && after[n] == s.disk[n])
    requires forall n :: n in s.seen && n in s.disk ==> n in after
    ensures EnvironmentStep(s, Checkpoint(kept), p, s.(durable := kept))
    ensures EnvironmentStep(s, PowerLoss(kept, after), p, State(s.hash, s.history[..kept + 1], kept, after, after, None, None, map[]))
  {
  }
}
