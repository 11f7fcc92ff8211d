/**
  The shared backup schedule of `src/backup.rs`. Any number of processes attempt
  a backup against one directory: a due check, an advisory lock, the due check
  again, the write, the rotation. Times are milliseconds.
*/
module BackupSchedule {
  import opened Common

  type Proc = nat
  type Time = int

  const SECOND := 1000
  const STARTUP_DELAY := 5 * SECOND
  const BUSY_RETRY := 60 * SECOND
  const MIN_WAIT := 1 * SECOND

  /**
    A file name by its place in name order: archive names carry a UTC stamp in
    whole seconds, and a legacy `.db` snapshot sorts before an archive of the
    same second.
  */
  type Name = int

  function NameAt(t: Time): Name { 2 * (t / SECOND) + 1 }

  /** The artifacts of one database, each with its modification time. */
  type Dir = map<Name, Time>

  // ---- The plan ----

  datatype Config = Config(intervalMinutes: nat, retain: nat)

  const DEFAULT_INTERVAL_MINUTES := 60
  const DEFAULT_RETAIN := 24

  /** `checked_interval_minutes` */
  function CheckedInterval(configured: nat): nat {
    if configured == 0 then DEFAULT_INTERVAL_MINUTES else configured
  }

  /** `checked_retain` */
  function CheckedRetain(configured: nat): nat {
    if configured == 0 then DEFAULT_RETAIN else configured
  }

  datatype Plan = Plan(interval: Time, retain: nat) {
    ghost predicate Valid() { interval >= 60 * SECOND && retain >= 1 }
  }

  /** Whatever the configuration says, the schedule is never continuous and never keeps nothing. */
  function PlanOf(cfg: Config): (plan: Plan)
    ensures plan.Valid()
    ensures plan.interval == 60_000 * if cfg.intervalMinutes > 0 then cfg.intervalMinutes else 60
    ensures plan.retain == if cfg.retain > 0 then cfg.retain else 24
  {
    Plan(CheckedInterval(cfg.intervalMinutes) * 60 * SECOND, CheckedRetain(cfg.retain))
  }

  // ---- Due ----

  /** What a look at the directory finds: the artifacts that can be read, none when the directory cannot. */
  function Seen(dir: Dir, read: set<Name>): Dir { map n | n in dir && n in read :: dir[n] }

  /** A file dated after the clock reading is skipped. */
  ghost predicate Visible(dir: Dir, now: Time, n: Name) { n in dir && dir[n] <= now }

  /** `time_until_due` is zero: every visible artifact is at least an interval old. */
  ghost predicate Due(plan: Plan, dir: Dir, now: Time) {
    forall n :: Visible(dir, now, n) ==> dir[n] + plan.interval <= now
  }

  /** The mtime of the newest visible artifact is `m`. */
  ghost predicate IsNewest(dir: Dir, now: Time, m: Time) {
    && (exists n :: Visible(dir, now, n) && dir[n] == m)
    && (forall n :: Visible(dir, now, n) ==> dir[n] <= m)
  }

  /** `newest_backup_age`: one pass over the directory, files in any order; what cannot be read is passed over. */
  method NewestBackupAge(dir: Dir, read: set<Name>, now: Time) returns (age: Option<Time>)
    ensures age == None <==> forall n :: !Visible(Seen(dir, read), now, n)
    ensures age.Some? ==> age.value >= 0 && IsNewest(Seen(dir, read), now, now - age.value)
  {
    age := None;
    ghost var seen := Seen(dir, read);
    var left: set<Name> := dir.Keys;
    while left != {}
      invariant left <= dir.Keys
      invariant age == None <==> forall n :: Visible(seen, now, n) ==> n in left
      invariant age.Some? ==> age.value >= 0 && exists n :: Visible(seen, now, n) && seen[n] == now - age.value
      invariant forall n :: Visible(seen, now, n) && n !in left ==> age.Some? && seen[n] <= now - age.value
      decreases left
    {
      var n := Pick(left);
      if n in read && dir[n] <= now {
        assert Visible(seen, now, n);
        if age == None || now - dir[n] < age.value { age := Some(now - dir[n]); }
      }
      left := left - {n};
    }
  }

  /** `time_until_due`: zero also when nothing can be read. */
  method TimeUntilDue(plan: Plan, dir: Dir, read: set<Name>, now: Time) returns (wait: Time)
    ensures wait >= 0
    ensures wait == 0 <==> Due(plan, Seen(dir, read), now)
    ensures wait > 0 ==> IsNewest(Seen(dir, read), now, now + wait - plan.interval)
  {
    var age := NewestBackupAge(dir, read, now);
    if age == None { return 0; }
    var newest: Time := now - age.value;
    assert IsNewest(Seen(dir, read), now, newest);
    wait := if plan.interval > age.value then plan.interval - age.value else 0;
  }

  // ---- Rotation ----

  ghost function Later(dir: Dir, n: Name): set<Name> { set m | m in dir && m > n }

  /** Rotation keeps a name it does not find listed, or when fewer than `retain` listed ones sort after it, or when its removal fails. */
  ghost function Kept(dir: Dir, retain: nat, listed: set<Name>, stuck: set<Name>): Dir {
    map n | n in dir && (n !in listed || n in stuck || |Later(Seen(dir, listed), n)| < retain) :: dir[n]
  }

  ghost predicate Ascending(names: seq<Name>) { forall i, j :: 0 <= i < j < |names| ==> names[i] < names[j] }

  /** The listing `read_dir` yields in any order, sorted by file name. */
  method SortedNames(files: set<Name>) returns (names: seq<Name>)
    ensures Ascending(names)
    ensures forall n :: n in names <==> n in files
  {
    names := [];
    var left: set<Name> := files;
    while left != {}
      invariant left <= files && Ascending(names)
      invariant forall n :: n in names <==> n in files && n !in left
      decreases left
    {
      var n := Pick(left);
      var i := 0;
      while i < |names| && names[i] < n
        invariant 0 <= i <= |names|
        invariant forall k :: 0 <= k < i ==> names[k] < n
      {
        i := i + 1;
      }
      names := names[..i] + [n] + names[i..];
      left := left - {n};
    }
  }

  lemma {:induction false} AscendingCount(names: seq<Name>)
    requires Ascending(names)
    ensures |(set n | n in names)| == |names|
  {
    if names == [] {
      assert (set n | n in names) == {};
    } else {
      var last := |names| - 1;
      assert names == names[..last] + [names[last]];
      assert (set n | n in names) == (set n | n in names[..last]) + {names[last]};
      AscendingCount(names[..last]);
    }
  }

  /** In sorted order, the names after position `i` are exactly those that sort later. */
  lemma LaterCount(dir: Dir, names: seq<Name>, i: nat)
    requires Ascending(names) && i < |names|
    requires forall n :: n in names <==> n in dir
    ensures |Later(dir, names[i])| == |names| - 1 - i
  {
    var after := names[i + 1..];
    assert Later(dir, names[i]) == set n | n in after;
    AscendingCount(after);
  }

  class BackupDir {
    var files: Dir

    constructor (files: Dir)
      ensures this.files == files
    {
      this.files := files;
    }

    /** `rotate_backups`: sort what is listed by name, remove the first `len - retain`; a removal may fail. */
    method Rotate(retain: nat, listed: set<Name>, stuck: set<Name>)
      modifies this
      ensures files == Kept(old(files), retain, listed, stuck)
    {
      ghost var before := files;
      var names := SortedNames(files.Keys * listed);
      var toRemove := if |names| > retain then |names| - retain else 0;
      var i := 0;
      while i < toRemove
        invariant 0 <= i <= toRemove
        invariant forall n :: n in files <==> n in before && (n in stuck || n !in names[..i])
        invariant forall n :: n in files ==> files[n] == before[n]
      {
        if names[i] !in stuck { files := files - {names[i]}; }
        i := i + 1;
      }
      ghost var kept := Kept(before, retain, listed, stuck);
      RemovedAreTheFirst(before, retain, listed, stuck, names);
      assert names[..i] == names[..toRemove];
      forall n ensures (n in files <==> n in kept) && (n in files ==> files[n] == kept[n]) {
        assert n in kept <==> n in before && (n in stuck || n !in names[..toRemove]);
      }
      SameMap(files, kept);
    }
  }

  /** In sorted order, what rotation does not keep is the first `len - retain` names, unless they are stuck. */
  lemma RemovedAreTheFirst(dir: Dir, retain: nat, listed: set<Name>, stuck: set<Name>, names: seq<Name>)
    requires Ascending(names) && forall n :: n in names <==> n in dir && n in listed
    ensures var toRemove := if |names| > retain then |names| - retain else 0;
            forall n :: n in Kept(dir, retain, listed, stuck) <==> n in dir && (n in stuck || n !in names[..toRemove])
  {
    var toRemove := if |names| > retain then |names| - retain else 0;
    var removed := names[..toRemove];
    assert forall n :: n in removed ==> n in names;
    forall n | n in names ensures |Later(Seen(dir, listed), n)| < retain <==> n !in removed {
      var k :| 0 <= k < |names| && names[k] == n;
      LaterCount(Seen(dir, listed), names, k);
      if k < toRemove { assert removed[k] == n; }
    }
  }

  /** Of what is listed rotation leaves the `retain` names that sort last, all of them when there are no more, and it touches nothing else. */
  lemma RotationKeepsTheLastNames(dir: Dir, retain: nat, listed: set<Name>, names: seq<Name>)
    requires Ascending(names) && forall n :: n in names <==> n in Seen(dir, listed)
    ensures var cut := if |names| > retain then |names| - retain else 0;
            forall n :: n in Kept(dir, retain, listed, {}) <==> n in dir && (n in listed ==> n in names[cut..])
  {
    var cut := if |names| > retain then |names| - retain else 0;
    RemovedAreTheFirst(dir, retain, listed, {}, names);
    assert names == names[..cut] + names[cut..];
    forall n | n in names[cut..] ensures n !in names[..cut] {
      var k :| 0 <= k < |names[cut..]| && names[cut..][k] == n;
      assert forall i :: 0 <= i < cut ==> names[i] < names[cut + k];
    }
  }

  /**
    Right after an archive is written and rotated in, the next backup is due at
    once exactly when at least `retain` artifacts have later names: the limit of
    a schedule that ages by mtime and rotates by name.
  */
  lemma DueAgainAtOnce(plan: Plan, dir: Dir, n: Name, mtime: Time, now: Time)
    requires Due(plan, dir, now) && n !in dir && mtime <= now < mtime + plan.interval
    ensures var full := dir[n := mtime];
            Due(plan, Kept(full, plan.retain, full.Keys, {}), now) <==> |Later(dir, n)| >= plan.retain
  {
    var full := dir[n := mtime];
    var rest := Kept(full, plan.retain, full.Keys, {});
    assert Later(Seen(full, full.Keys), n) == Later(dir, n);
    if |Later(dir, n)| < plan.retain {
      assert Visible(rest, now, n);
    } else {
      forall m | Visible(rest, now, m) ensures rest[m] + plan.interval <= now {
        assert Visible(dir, now, m);
      }
    }
  }

  // ---- Processes ----

  datatype Outcome = NotDue | Busy | Written | Failed

  datatype Pc =
    | Gone                                           // not running
    | Sleeping(until: Time)
    | Checking(start: Time, clock: Time)             // first due check, its clock read
    | Locking(start: Time)
    | Locked(start: Time)                            // schedule lock held from here ...
    | Rechecking(start: Time, clock: Time)
    | Writing(start: Time, begin: Time)              // the archive is staged out of sight
    | Published(start: Time, begin: Time, mtime: Time)   // renamed into place, not yet reported
    | Rotating(start: Time, begin: Time, doomed: set<Name>)  // ... to here
    | Ended(start: Time, outcome: Outcome)

  /** A successful write. */
  datatype Write = Write(begin: Time, end: Time, mtime: Time)

  datatype State = State(now: Time, dir: Dir, lock: Option<Proc>, procs: map<Proc, Pc>, writes: seq<Write>)

  ghost function At(s: State, p: Proc): Pc { if p in s.procs then s.procs[p] else Gone }

  datatype Act =
    | StartScheduler | RunOnce | Wake
    | Check(read: set<Name>) | TryLock | LockFails | Reread | Recheck(read: set<Name>)
    | Publish(mtime: Time) | Complete(listed: set<Name>) | FailWrite(removed: bool)
    | RemoveOld(n: Name, ok: bool) | EndRotation
    | GoToSleep(read: set<Name>, due: Time) | Exit | Crash

  datatype Step = Tick(t: Time) | By(p: Proc, act: Act)

  /** When the next backup falls due, seen at `now`; with nothing visible it is due already. */
  ghost predicate IsDueTime(plan: Plan, dir: Dir, now: Time, due: Time) {
    if exists m :: IsNewest(dir, now, m) then IsNewest(dir, now, due - plan.interval) else due == now
  }

  function Max(a: Time, b: Time): Time { if a < b then b else a }

  function Min(a: Time, b: Time): Time { if a < b then a else b }

  /** The sleep `schedule` chooses after an attempt. */
  function Wait(plan: Plan, outcome: Outcome, now: Time, due: Time): Time {
    var wait := match outcome
      case Written => plan.interval
      case NotDue => Max(due - now, 0)
      case Busy => Min(BUSY_RETRY, plan.interval)
      case Failed => plan.interval;
    Max(wait, MIN_WAIT)
  }

  predicate Holds(pc: Pc) { pc.Locked? || pc.Rechecking? || pc.Writing? || pc.Published? || pc.Rotating? }

  predicate IsWriter(pc: Pc) { pc.Writing? || pc.Published? }

  /** What a process can do next, from its own place and what it sees. */
  ghost predicate Enabled(plan: Plan, s: State, act: Act, pc: Pc) {
    match act
    case StartScheduler => pc == Gone
    case RunOnce => pc == Gone
    case Wake => pc.Sleeping? && pc.until <= s.now
    case Check(_) => pc.Checking?
    case TryLock => pc.Locking?
    case LockFails => pc.Locking?
    case Reread => pc.Locked?
    case Recheck(_) => pc.Rechecking?
    case Publish(mtime) => pc.Writing? && pc.begin <= mtime <= s.now // the staged file's last write
    case Complete(_) => pc.Published?
    case FailWrite(_) => IsWriter(pc)
    case RemoveOld(n, _) => pc.Rotating? && n in pc.doomed
    case EndRotation => pc.Rotating? && pc.doomed == {}
    case GoToSleep(read, due) => pc.Ended? && IsDueTime(plan, Seen(s.dir, read), s.now, due)
    case Exit => pc.Ended?
    case Crash => true
  }

  ghost function NextPc(plan: Plan, s: State, act: Act, pc: Pc): Pc
    requires Enabled(plan, s, act, pc)
  {
    match act
    case StartScheduler => Sleeping(s.now + STARTUP_DELAY)
    case RunOnce => Checking(s.now, s.now)
    case Wake => Checking(s.now, s.now)
    case Check(read) => if Due(plan, Seen(s.dir, read), pc.clock) then Locking(pc.start) else Ended(pc.start, NotDue)
    case TryLock => if s.lock == None then Locked(pc.start) else Ended(pc.start, Busy)
    case LockFails => Ended(pc.start, Failed)
    case Reread => Rechecking(pc.start, s.now)
    case Recheck(read) => if Due(plan, Seen(s.dir, read), pc.clock) then Writing(pc.start, s.now) else Ended(pc.start, NotDue)
    case Publish(mtime) => Published(pc.start, pc.begin, mtime)
    case Complete(listed) => // rotation lists what it can of the directory
      Rotating(pc.start, pc.begin, s.dir.Keys - Kept(s.dir, plan.retain, listed, {}).Keys)
    case FailWrite(_) => Ended(pc.start, Failed)
    case RemoveOld(n, _) => pc.(doomed := pc.doomed - {n})
    case EndRotation => Ended(pc.start, Written)
    case GoToSleep(_, due) => Sleeping(s.now + Wait(plan, pc.outcome, s.now, due))
    case Exit => Gone
    case Crash => Gone
  }

  ghost function NextDir(plan: Plan, s: State, act: Act, pc: Pc): Dir
    requires Enabled(plan, s, act, pc)
  {
    match act
    case Publish(mtime) => s.dir[NameAt(pc.begin) := mtime]
    case FailWrite(removed) => if removed then s.dir - {NameAt(pc.begin)} else s.dir
    case RemoveOld(n, ok) => if ok then s.dir - {n} else s.dir
    case _ => s.dir
  }

  ghost function NextWrites(plan: Plan, s: State, act: Act, pc: Pc): seq<Write>
    requires Enabled(plan, s, act, pc)
  {
    if act.Complete? then s.writes + [Write(pc.begin, s.now, pc.mtime)] else s.writes
  }

  /** The lock is held exactly while its holder is inside: dropping the handle releases it, and so does a crash. */
  ghost function NextLock(plan: Plan, s: State, act: Act, p: Proc): Option<Proc>
    requires Enabled(plan, s, act, At(s, p))
  {
    if Holds(NextPc(plan, s, act, At(s, p))) then Some(p)
    else if s.lock == Some(p) then None
    else s.lock
  }

  ghost predicate Next(plan: Plan, s: State, step: Step, s': State) {
    match step
    case Tick(t) => s.now <= t && s' == s.(now := t)
    case By(p, act) =>
      var pc := At(s, p);
      && Enabled(plan, s, act, pc)
      && s' == State(s.now, NextDir(plan, s, act, pc), NextLock(plan, s, act, p),
                     s.procs[p := NextPc(plan, s, act, pc)], NextWrites(plan, s, act, pc))
  }

  // ---- The invariant ----

  /** No name in the directory sorts after a file named at `t`. */
  ghost predicate NoLaterName(dir: Dir, t: Time) { forall n :: n in dir ==> n <= NameAt(t) }

  ghost predicate WellTimed(w: Write) { w.begin <= w.mtime <= w.end }

  /** `w` is over, and its archive at least an interval old, at `t`. */
  ghost predicate DueAfter(plan: Plan, w: Write, t: Time) { w.end <= t && w.mtime + plan.interval <= t }

  /** Writes follow one another. */
  ghost predicate Ordered(writes: seq<Write>) {
    && (forall w :: w in writes ==> WellTimed(w))
    && (forall i, j :: 0 <= i < j < |writes| ==> writes[i].end <= writes[j].begin)
  }

  /** Each begins at least an interval after every earlier archive's mtime. */
  ghost predicate Spaced(plan: Plan, writes: seq<Write>) {
    && (forall w :: w in writes ==> WellTimed(w))
    && (forall i, j :: 0 <= i < j < |writes| ==> DueAfter(plan, writes[i], writes[j].begin))
  }

  ghost predicate AllBefore(writes: seq<Write>, t: Time) { forall w :: w in writes ==> w.end <= t }

  ghost predicate AllDue(plan: Plan, writes: seq<Write>, t: Time) { forall w :: w in writes ==> DueAfter(plan, w, t) }

  ghost function Last(writes: seq<Write>): Write
    requires writes != []
  {
    writes[|writes| - 1]
  }

  /** The archive of the last successful write is still under its name. */
  ghost predicate NewestIsThere(dir: Dir, writes: seq<Write>) { writes != [] ==> NameAt(Last(writes).begin) in dir }

  /** What is under its name, if anything, is that archive or one written since, and not dated after `t`. */
  ghost predicate NewestIsDated(dir: Dir, writes: seq<Write>, t: Time) {
    writes != [] && NameAt(Last(writes).begin) in dir ==> Last(writes).mtime <= dir[NameAt(Last(writes).begin)] <= t
  }

  /** It is that archive itself. */
  ghost predicate LastIsThere(dir: Dir, writes: seq<Write>) {
    writes != [] ==> NameAt(Last(writes).begin) in dir && dir[NameAt(Last(writes).begin)] == Last(writes).mtime
  }

  ghost predicate PcOk(plan: Plan, s: State, pc: Pc) {
    match pc
    case Checking(start, clock) => start <= clock <= s.now
    case Locking(start) => start <= s.now
    case Locked(start) => start <= s.now
    case Rechecking(start, clock) =>
      start <= clock <= s.now && AllBefore(s.writes, clock) && NewestIsDated(s.dir, s.writes, clock)
    case Writing(start, begin) =>
      start <= begin <= s.now && AllBefore(s.writes, begin) && NoLaterName(s.dir, begin)
    case Published(start, begin, mtime) =>
      && start <= begin <= mtime <= s.now && AllBefore(s.writes, begin) && NoLaterName(s.dir, begin)
      && NameAt(begin) in s.dir && s.dir[NameAt(begin)] == mtime
    case Rotating(start, begin, doomed) =>
      && start <= begin <= s.now && NameAt(begin) !in doomed
      && s.writes != [] && Last(s.writes).begin == begin
    case Ended(start, outcome) =>
      start <= s.now && (outcome == Written ==> exists w :: w in s.writes && start <= w.begin)
    case _ => true
  }

  ghost predicate Inv(plan: Plan, s: State) {
    && (forall p: Proc :: Holds(At(s, p)) <==> s.lock == Some(p))
    && (forall p: Proc :: PcOk(plan, s, At(s, p)))
    && Ordered(s.writes) && AllBefore(s.writes, s.now)
    && NewestIsDated(s.dir, s.writes, s.now)
    && NoLaterName(s.dir, s.now)
  }

  lemma NamesFollowTime(t: Time, u: Time)
    requires t <= u
    ensures NameAt(t) <= NameAt(u)
    ensures t + SECOND <= u ==> NameAt(t) < NameAt(u)
  {
  }

  /** A process that does not hold the lock is untouched by what others do. */
  lemma OutsiderStaysOk(plan: Plan, s: State, s': State, pc: Pc)
    requires PcOk(plan, s, pc) && !Holds(pc) && s.now <= s'.now && s.writes <= s'.writes
    ensures PcOk(plan, s', pc)
  {
  }

  lemma TickKeepsInv(plan: Plan, s: State, t: Time, s': State)
    requires plan.Valid() && Inv(plan, s) && Next(plan, s, Tick(t), s')
    ensures Inv(plan, s')
  {
  }

  /** The mover's new place is sound. */
  lemma MoverStaysOk(plan: Plan, s: State, p: Proc, act: Act, s': State)
    requires plan.Valid() && Inv(plan, s) && Next(plan, s, By(p, act), s')
    ensures PcOk(plan, s', At(s', p))
  {
    assert PcOk(plan, s, At(s, p));
    var pc := At(s, p);
    match act
    case Complete(listed) =>
      assert Last(NextWrites(plan, s, act, pc)).begin == pc.begin;
      assert Later(Seen(s.dir, listed), NameAt(pc.begin)) == {};
    case EndRotation => assert Last(s.writes) in s.writes;
    case _ =>
  }

  /** Only the holder changes the directory. */
  lemma DirectoryStaysOk(plan: Plan, s: State, p: Proc, act: Act, s': State)
    requires plan.Valid() && Inv(plan, s) && Next(plan, s, By(p, act), s')
    ensures NoLaterName(s'.dir, s.now) && NewestIsDated(s'.dir, s'.writes, s.now)
    ensures Ordered(s'.writes) && AllBefore(s'.writes, s.now) && s.writes <= s'.writes
    ensures !Holds(At(s, p)) ==> s'.dir == s.dir && s'.writes == s.writes
  {
    var pc := At(s, p);
    assert PcOk(plan, s, pc);
    if IsWriter(pc) {
      NamesFollowTime(pc.begin, s.now);
      if s.writes != [] { assert Last(s.writes) in s.writes && WellTimed(Last(s.writes)); }
      if act.Complete? { WritesGrow(s.writes, Write(pc.begin, s.now, pc.mtime)); }
    }
  }

  lemma WritesGrow(writes: seq<Write>, w: Write)
    requires Ordered(writes) && WellTimed(w) && AllBefore(writes, w.begin)
    ensures Ordered(writes + [w]) && AllBefore(writes + [w], w.end)
  {
  }

  lemma ActKeepsInv(plan: Plan, s: State, p: Proc, act: Act, s': State)
    requires plan.Valid() && Inv(plan, s) && Next(plan, s, By(p, act), s')
    ensures Inv(plan, s')
  {
    MoverStaysOk(plan, s, p, act, s');
    DirectoryStaysOk(plan, s, p, act, s');
    LockFollowsHolder(plan, s, p, act, s');
    forall q: Proc ensures PcOk(plan, s', At(s', q)) {
      if q != p {
        assert PcOk(plan, s, At(s, q)) && At(s', q) == At(s, q);
        if Holds(At(s, q)) {
          assert !Holds(At(s, p));
          assert s'.dir == s.dir && s'.writes == s.writes && s'.now == s.now;
        } else {
          OutsiderStaysOk(plan, s, s', At(s, q));
        }
      }
    }
  }

  lemma LockFollowsHolder(plan: Plan, s: State, p: Proc, act: Act, s': State)
    requires Next(plan, s, By(p, act), s') && forall q: Proc :: Holds(At(s, q)) <==> s.lock == Some(q)
    ensures forall q: Proc :: Holds(At(s', q)) <==> s'.lock == Some(q)
  {
  }

  // ---- Runs ----

  ghost predicate Init(s: State) {
    s.lock == None && s.procs == map[] && s.writes == [] && NoLaterName(s.dir, s.now)
  }

  ghost predicate IsRun(plan: Plan, run: seq<State>, steps: seq<Step>) {
    && |run| == |steps| + 1 && Init(run[0])
    && forall k :: 0 <= k < |steps| ==> Next(plan, run[k], steps[k], run[k + 1])
  }

  lemma {:induction false} RunKeepsInv(plan: Plan, run: seq<State>, steps: seq<Step>, k: nat)
    requires plan.Valid() && IsRun(plan, run, steps) && k < |run|
    ensures Inv(plan, run[k])
    ensures forall j :: 0 <= j <= k ==> run[j].writes <= run[k].writes
  {
    if k == 0 {
      assert forall p: Proc :: At(run[0], p) == Gone;
    } else {
      hide Inv;
      RunKeepsInv(plan, run, steps, k - 1);
      StepKeepsInv(plan, run[k - 1], steps[k - 1], run[k]);
    }
  }

  lemma StepKeepsInv(plan: Plan, s: State, step: Step, s': State)
    requires plan.Valid() && Inv(plan, s) && Next(plan, s, step, s')
    ensures Inv(plan, s') && s.writes <= s'.writes
  {
    match step
    case Tick(t) => TickKeepsInv(plan, s, t, s');
    case By(p, act) => ActKeepsInv(plan, s, p, act, s');
  }

  // ---- Spacing ----

  /** The look at the directory found the newest archive. */
  ghost predicate SawNewest(s: State, read: set<Name>) {
    s.writes != [] ==> NameAt(Last(s.writes).begin) in Seen(s.dir, read)
  }

  ghost predicate NewestIsOld(plan: Plan, s: State) { s.writes != [] ==> Last(s.writes).mtime + plan.interval <= s.now }

  /**
    Due under the lock, at a clock no write is ahead of: every archive is an
    interval old exactly when the look found the newest one, or that is old anyway.
  */
  lemma RecheckedIsDue(plan: Plan, s: State, clock: Time, read: set<Name>)
    requires plan.Valid() && Inv(plan, s) && clock <= s.now && Due(plan, Seen(s.dir, read), clock)
    requires AllBefore(s.writes, clock) && NewestIsDated(s.dir, s.writes, clock)
    ensures AllDue(plan, s.writes, s.now) <==> SawNewest(s, read) || NewestIsOld(plan, s)
  {
    if s.writes != [] {
      var last := Last(s.writes);
      assert last in s.writes && WellTimed(last);
      if SawNewest(s, read) { assert Visible(Seen(s.dir, read), clock, NameAt(last.begin)); }
      if last.mtime + plan.interval <= s.now { NewestIsYoungest(plan, s.writes, s.now); }
    }
  }

  lemma NewestIsYoungest(plan: Plan, writes: seq<Write>, now: Time)
    requires Ordered(writes) && AllBefore(writes, now) && writes != [] && Last(writes).mtime + plan.interval <= now
    ensures AllDue(plan, writes, now)
  {
    forall w | w in writes ensures DueAfter(plan, w, now) {
      var i :| 0 <= i < |writes| && writes[i] == w;
      assert WellTimed(w) && WellTimed(Last(writes));
    }
  }

  /** What a schedule without early writes keeps besides. */
  ghost predicate SpacedInv(plan: Plan, s: State) {
    && Spaced(plan, s.writes) && LastIsThere(s.dir, s.writes)
    && forall p: Proc :: IsWriter(At(s, p)) ==> AllDue(plan, s.writes, At(s, p).begin)
  }

  /** The step begins a write. */
  ghost predicate Begins(step: Step, s': State) { step.By? && step.act.Recheck? && At(s', step.p).Writing? }

  lemma SpacedWritesGrow(plan: Plan, writes: seq<Write>, w: Write)
    requires Spaced(plan, writes) && WellTimed(w) && AllDue(plan, writes, w.begin)
    ensures Spaced(plan, writes + [w])
  {
  }

  lemma SpacedDirectory(plan: Plan, s: State, p: Proc, act: Act, s': State)
    requires plan.Valid() && Inv(plan, s) && SpacedInv(plan, s) && Next(plan, s, By(p, act), s')
    ensures Spaced(plan, s'.writes) && LastIsThere(s'.dir, s'.writes)
  {
    var pc := At(s, p);
    assert PcOk(plan, s, pc);
    if IsWriter(pc) {
      if s.writes != [] {
        var last := Last(s.writes);
        assert last in s.writes && WellTimed(last) && DueAfter(plan, last, pc.begin);
        NamesFollowTime(last.begin, pc.begin);
      }
      if act.Complete? { SpacedWritesGrow(plan, s.writes, Write(pc.begin, s.now, pc.mtime)); }
    }
  }

  lemma StepKeepsSpacing(plan: Plan, s: State, step: Step, s': State)
    requires plan.Valid() && Inv(plan, s) && SpacedInv(plan, s) && Next(plan, s, step, s')
    requires Begins(step, s') ==> AllDue(plan, s.writes, s.now)
    ensures SpacedInv(plan, s')
  {
    if step.By? {
      SpacedDirectory(plan, s, step.p, step.act, s');
      forall q: Proc | IsWriter(At(s', q)) ensures AllDue(plan, s'.writes, At(s', q).begin) {
        WriterStaysDue(plan, s, step, s', q);
      }
    } else {
      assert forall q: Proc :: At(s', q) == At(s, q);
    }
  }

  lemma WriterStaysDue(plan: Plan, s: State, step: Step, s': State, q: Proc)
    requires plan.Valid() && Inv(plan, s) && SpacedInv(plan, s) && Next(plan, s, step, s') && step.By?
    requires Begins(step, s') ==> AllDue(plan, s.writes, s.now)
    requires IsWriter(At(s', q))
    ensures AllDue(plan, s'.writes, At(s', q).begin)
  {
    if q == step.p {
      assert step.act.Recheck? || step.act.Publish?;
      assert s'.writes == s.writes;
    } else {
      assert At(s', q) == At(s, q) && Holds(At(s, q)) && !Holds(At(s, step.p));
    }
  }

  /** No write has begun less than an interval after an earlier archive. */
  ghost predicate NoEarlyWrite(plan: Plan, run: seq<State>, steps: seq<Step>, k: nat)
    requires k <= |steps| && |run| == |steps| + 1
  {
    forall j :: 0 <= j < k && Begins(steps[j], run[j + 1]) ==> AllDue(plan, run[j].writes, run[j].now)
  }

  /** Before every write the second check found the newest archive, or that was an interval old anyway. */
  ghost predicate NoBlindWrite(plan: Plan, run: seq<State>, steps: seq<Step>, k: nat)
    requires k <= |steps| && |run| == |steps| + 1
  {
    forall j :: 0 <= j < k && Begins(steps[j], run[j + 1]) ==>
      SawNewest(run[j], steps[j].act.read) || NewestIsOld(plan, run[j])
  }

  lemma EarlyIsBlind(plan: Plan, run: seq<State>, steps: seq<Step>, j: nat)
    requires plan.Valid() && IsRun(plan, run, steps) && j < |steps| && Begins(steps[j], run[j + 1])
    ensures AllDue(plan, run[j].writes, run[j].now) <==>
            SawNewest(run[j], steps[j].act.read) || NewestIsOld(plan, run[j])
  {
    RunKeepsInv(plan, run, steps, j);
    var pc := At(run[j], steps[j].p);
    assert PcOk(plan, run[j], pc);
    RecheckedIsDue(plan, run[j], pc.clock, steps[j].act.read);
  }

  lemma {:induction false} RunKeepsSpacing(plan: Plan, run: seq<State>, steps: seq<Step>, k: nat)
    requires plan.Valid() && IsRun(plan, run, steps) && k <= |steps| && NoEarlyWrite(plan, run, steps, k)
    ensures SpacedInv(plan, run[k])
  {
    if k == 0 {
      assert forall p: Proc :: At(run[0], p) == Gone;
    } else {
      hide Inv, SpacedInv, Next;
      RunKeepsSpacing(plan, run, steps, k - 1);
      RunKeepsInv(plan, run, steps, k - 1);
      assert Next(plan, run[k - 1], steps[k - 1], run[k]);
      StepKeepsSpacing(plan, run[k - 1], steps[k - 1], run[k]);
    }
  }

  /**
    One shared schedule. At every point of every run at most one process is
    writing and every write is over before the next begins. No write has begun
    less than an interval after an earlier archive exactly when before each the
    second check found the newest archive, or that was old anyway; and then the
    newest archive has survived every rotation and every failed write since.
  */
  lemma OneSharedSchedule(plan: Plan, run: seq<State>, steps: seq<Step>, k: nat)
    requires plan.Valid() && IsRun(plan, run, steps) && k <= |steps|
    ensures forall p: Proc, q: Proc :: IsWriter(At(run[k], p)) && IsWriter(At(run[k], q)) ==> p == q
    ensures forall p: Proc :: IsWriter(At(run[k], p)) ==> AllBefore(run[k].writes, At(run[k], p).begin)
    ensures Ordered(run[k].writes)
    ensures forall j :: 0 <= j <= k ==> run[j].writes <= run[k].writes
    ensures NoEarlyWrite(plan, run, steps, k) <==> NoBlindWrite(plan, run, steps, k)
    ensures NoBlindWrite(plan, run, steps, k) ==>
              && Spaced(plan, run[k].writes) && LastIsThere(run[k].dir, run[k].writes)
              && forall p: Proc :: IsWriter(At(run[k], p)) ==> AllDue(plan, run[k].writes, At(run[k], p).begin)
  {
    RunKeepsInv(plan, run, steps, k);
    hide Next, IsRun, Spaced, LastIsThere, NoBlindWrite, Begins;
    OneWriter(plan, run[k]);
    SpacingIsExact(plan, run, steps, k);
    if NoEarlyWrite(plan, run, steps, k) { RunKeepsSpacing(plan, run, steps, k); }
  }

  lemma OneWriter(plan: Plan, s: State)
    requires Inv(plan, s)
    ensures forall p: Proc, q: Proc :: IsWriter(At(s, p)) && IsWriter(At(s, q)) ==> p == q
    ensures forall p: Proc :: IsWriter(At(s, p)) ==> AllBefore(s.writes, At(s, p).begin)
  {
    assert forall p: Proc :: PcOk(plan, s, At(s, p));
    assert forall p: Proc :: Holds(At(s, p)) <==> s.lock == Some(p);
  }

  lemma SpacingIsExact(plan: Plan, run: seq<State>, steps: seq<Step>, k: nat)
    requires plan.Valid() && IsRun(plan, run, steps) && k <= |steps|
    ensures NoEarlyWrite(plan, run, steps, k) <==> NoBlindWrite(plan, run, steps, k)
  {
    hide IsRun, AllDue, SawNewest, NewestIsOld;
    assert |run| == |steps| + 1 by { RunLength(plan, run, steps); }
    forall j: nat | j < k && Begins(steps[j], run[j + 1])
      ensures AllDue(plan, run[j].writes, run[j].now) <==>
              SawNewest(run[j], steps[j].act.read) || NewestIsOld(plan, run[j])
    {
      EarlyIsBlind(plan, run, steps, j);
    }
  }

  lemma RunLength(plan: Plan, run: seq<State>, steps: seq<Step>)
    requires IsRun(plan, run, steps)
    ensures |run| == |steps| + 1
  {
  }

  // ---- How the newest archive is lost ----

  /** A failed write takes the file of this name away. */
  ghost predicate Removes(s: State, step: Step, n: Name) {
    step.By? && step.act == FailWrite(true) && IsWriter(At(s, step.p)) && NameAt(At(s, step.p).begin) == n
  }

  ghost predicate Publishes(s: State, step: Step, n: Name) {
    step.By? && step.act.Publish? && At(s, step.p).Writing? && NameAt(At(s, step.p).begin) == n
  }

  /** The archive of the last write in `run[k]` went with the failed write of step `j`, and nothing took its name since. */
  ghost predicate LostAt(run: seq<State>, steps: seq<Step>, j: nat, k: nat)
    requires j < k <= |steps| && |run| == |steps| + 1 && run[k].writes != []
  {
    var n := NameAt(Last(run[k].writes).begin);
    && run[j].writes == run[k].writes && Removes(run[j], steps[j], n)
    && forall i :: j < i < k ==> !Publishes(run[i], steps[i], n)
  }

  ghost predicate Lost(run: seq<State>, steps: seq<Step>, k: nat)
    requires k <= |steps| && |run| == |steps| + 1 && run[k].writes != []
  {
    exists j: nat :: j < k && LostAt(run, steps, j, k)
  }

  lemma StepOnTheNewest(plan: Plan, s: State, step: Step, s': State)
    requires plan.Valid() && Inv(plan, s) && Next(plan, s, step, s') && s'.writes != []
    ensures var n := NameAt(Last(s'.writes).begin);
            if s'.writes == s.writes then
              n in s'.dir <==> (n in s.dir || Publishes(s, step, n)) && !Removes(s, step, n)
            else n in s'.dir
  {
    if step.By? { assert PcOk(plan, s, At(s, step.p)); }
  }

  /**
    Whatever is read or not, the newest archive is gone exactly when a later write
    of the same second failed and removed the file of that name, and no further
    write has put one there.
  */
  lemma {:induction false} NewestIsLostExactly(plan: Plan, run: seq<State>, steps: seq<Step>, k: nat)
    requires plan.Valid() && IsRun(plan, run, steps) && k <= |steps| && run[k].writes != []
    ensures !NewestIsThere(run[k].dir, run[k].writes) <==> Lost(run, steps, k)
  {
    if k > 0 {
      var n := NameAt(Last(run[k].writes).begin);
      RunKeepsInv(plan, run, steps, k - 1);
      assert Next(plan, run[k - 1], steps[k - 1], run[k]);
      StepOnTheNewest(plan, run[k - 1], steps[k - 1], run[k]);
      if run[k - 1].writes == run[k].writes {
        NewestIsLostExactly(plan, run, steps, k - 1);
        hide Inv, Next, IsRun;
        LostOneMore(run, steps, k);
      } else {
        NoneLostBefore(plan, run, steps, k);
      }
    }
  }

  lemma LostOneMore(run: seq<State>, steps: seq<Step>, k: nat)
    requires 0 < k <= |steps| && |run| == |steps| + 1 && run[k].writes != [] && run[k - 1].writes == run[k].writes
    ensures var n := NameAt(Last(run[k].writes).begin);
            Lost(run, steps, k) <==>
            Removes(run[k - 1], steps[k - 1], n) || (!Publishes(run[k - 1], steps[k - 1], n) && Lost(run, steps, k - 1))
  {
    hide Removes, Publishes;
    var n := NameAt(Last(run[k].writes).begin);
    var before: nat := k - 1;
    if Removes(run[before], steps[before], n) { assert LostAt(run, steps, before, k); }
    if j: nat :| j < k && LostAt(run, steps, j, k) {
      if j < before { assert LostAt(run, steps, j, before); }
    }
    if !Publishes(run[before], steps[before], n) && Lost(run, steps, before) {
      var j: nat :| j < before && LostAt(run, steps, j, before);
      assert LostAt(run, steps, j, k);
    }
  }

  lemma NoneLostBefore(plan: Plan, run: seq<State>, steps: seq<Step>, k: nat)
    requires plan.Valid() && IsRun(plan, run, steps) && 0 < k <= |steps| && run[k].writes != []
    requires run[k - 1].writes != run[k].writes
    ensures !Lost(run, steps, k)
  {
    hide Inv, Next;
    RunKeepsInv(plan, run, steps, k);
    RunKeepsInv(plan, run, steps, k - 1);
  }

  // ---- A blind write ----

  lemma Continue(plan: Plan, run: seq<State>, steps: seq<Step>, step: Step, s': State)
    requires IsRun(plan, run, steps) && Next(plan, run[|steps|], step, s')
    ensures IsRun(plan, run + [s'], steps + [step])
  {
    hide Next;
  }

  lemma ThreeSteps(
      plan: Plan, run: seq<State>, steps: seq<Step>, x: Step, s1: State, y: Step, s2: State, z: Step, s3: State)
    returns (run': seq<State>, steps': seq<Step>)
    requires IsRun(plan, run, steps) && Next(plan, run[|steps|], x, s1) && Next(plan, s1, y, s2) && Next(plan, s2, z, s3)
    ensures IsRun(plan, run', steps') && run' == run + [s1, s2, s3] && steps' == steps + [x, y, z]
    ensures |run| == |steps| + 1
  {
    hide Next;
    Continue(plan, run, steps, x, s1);
    Continue(plan, run + [s1], steps + [x], y, s2);
    Continue(plan, run + [s1] + [s2], steps + [x] + [y], z, s3);
    run', steps' := run + [s1] + [s2] + [s3], steps + [x] + [y] + [z];
  }

  ghost function Enters(s: State, p: Proc, pc: Pc): State { s.(procs := s.procs[p := pc]) }

  /** An attempt to which what it reads looks due takes the free lock. */
  lemma TakesTheLock(plan: Plan, run: seq<State>, steps: seq<Step>, p: Proc, read: set<Name>)
    returns (run': seq<State>, steps': seq<Step>)
    requires IsRun(plan, run, steps) && run[|steps|].lock == None && At(run[|steps|], p) == Gone
    requires var s := run[|steps|]; Due(plan, Seen(s.dir, read), s.now)
    ensures IsRun(plan, run', steps') && |steps'| == |steps| + 3 && run <= run' && steps <= steps'
    ensures var s := run[|steps|]; run'[|steps'|] == Enters(s, p, Locked(s.now)).(lock := Some(p))
  {
    var s := run[|steps|];
    var s1 := Enters(s, p, Checking(s.now, s.now));
    var s2 := Enters(s, p, Locking(s.now));
    var s3 := Enters(s, p, Locked(s.now)).(lock := Some(p));
    assert Next(plan, s, By(p, RunOnce), s1) && Next(plan, s1, By(p, Check(read)), s2);
    assert Next(plan, s2, By(p, TryLock), s3);
    hide Next, IsRun;
    run', steps' := ThreeSteps(plan, run, steps, By(p, RunOnce), s1, By(p, Check(read)), s2, By(p, TryLock), s3);
  }

  /** An attempt to which what it reads looks due, twice, gets as far as writing. */
  lemma GetsToWriting(plan: Plan, run: seq<State>, steps: seq<Step>, p: Proc, read: set<Name>)
    returns (run': seq<State>, steps': seq<Step>)
    requires IsRun(plan, run, steps) && run[|steps|].lock == None && At(run[|steps|], p) == Gone
    requires var s := run[|steps|]; Due(plan, Seen(s.dir, read), s.now)
    ensures IsRun(plan, run', steps') && |steps'| == |steps| + 5 && run <= run' && steps <= steps'
    ensures steps'[|steps| + 4] == By(p, Recheck(read))
    ensures var s := run[|steps|];
            && run'[|steps| + 4].writes == s.writes && run'[|steps| + 4].now == s.now
            && run'[|steps'|] == Enters(s, p, Writing(s.now, s.now)).(lock := Some(p))
  {
    var s := run[|steps|];
    run', steps' := TakesTheLock(plan, run, steps, p, read);
    var s3 := run'[|steps'|];
    var s4 := Enters(s, p, Rechecking(s.now, s.now)).(lock := Some(p));
    var s5 := Enters(s, p, Writing(s.now, s.now)).(lock := Some(p));
    assert Next(plan, s3, By(p, Reread), s4) && Next(plan, s4, By(p, Recheck(read)), s5);
    hide Next, IsRun;
    assert |run'| == |steps'| + 1 by { RunLength(plan, run', steps'); }
    Continue(plan, run', steps', By(p, Reread), s4);
    run', steps' := run' + [s4], steps' + [By(p, Reread)];
    Continue(plan, run', steps', By(p, Recheck(read)), s5);
    run', steps' := run' + [s5], steps' + [By(p, Recheck(read))];
  }

  /** It writes at once and reports success. */
  lemma WritesAtOnce(plan: Plan, run: seq<State>, steps: seq<Step>, p: Proc) returns (run': seq<State>, steps': seq<Step>)
    requires IsRun(plan, run, steps) && run[|steps|].lock == Some(p)
    requires var s := run[|steps|]; At(s, p) == Writing(s.now, s.now)
    ensures IsRun(plan, run', steps') && |steps'| == |steps| + 3
    ensures var s := run[|steps|];
            run'[|steps'|] == Enters(s, p, Ended(s.now, Written)).(
              lock := None, dir := s.dir[NameAt(s.now) := s.now], writes := s.writes + [Write(s.now, s.now, s.now)])
  {
    var s := run[|steps|];
    var dir, writes := s.dir[NameAt(s.now) := s.now], s.writes + [Write(s.now, s.now, s.now)];
    var s1 := Enters(s, p, Published(s.now, s.now, s.now)).(dir := dir);
    var s2 := Enters(s, p, Rotating(s.now, s.now, {})).(dir := dir, writes := writes);
    var s3 := Enters(s, p, Ended(s.now, Written)).(lock := None, dir := dir, writes := writes);
    assert Kept(dir, plan.retain, {}, {}) == dir && dir.Keys - dir.Keys == {};
    assert Next(plan, s, By(p, Publish(s.now)), s1) && Next(plan, s1, By(p, Complete({})), s2);
    assert Next(plan, s2, By(p, EndRotation), s3);
    hide Next, IsRun;
    run', steps' := ThreeSteps(plan, run, steps, By(p, Publish(s.now)), s1, By(p, Complete({})), s2, By(p, EndRotation), s3);
  }

  lemma FailsAndRemoves(plan: Plan, run: seq<State>, steps: seq<Step>, p: Proc) returns (run': seq<State>, steps': seq<Step>)
    requires IsRun(plan, run, steps) && run[|steps|].lock == Some(p)
    requires var s := run[|steps|]; At(s, p) == Writing(s.now, s.now)
    ensures |run'| == |run| + 1 && |steps'| == |steps| + 1 && run <= run' && steps <= steps' && IsRun(plan, run', steps')
    ensures var s, s' := run[|steps|], run'[|steps'|]; s'.writes == s.writes && s'.dir == s.dir - {NameAt(s.now)}
  {
    var s := run[|steps|];
    var s' := Enters(s, p, Ended(s.now, Failed)).(lock := None, dir := s.dir - {NameAt(s.now)});
    assert Next(plan, s, By(p, FailWrite(true)), s');
    Continue(plan, run, steps, By(p, FailWrite(true)), s');
    run', steps' := run + [s'], steps + [By(p, FailWrite(true))];
  }

  /**
    Two attempts that cannot read the directory, in the same second: the second
    begins to write at once after the first archive, fails, and removes it.
  */
  lemma UnreadDirectoryLosesTheNewest(plan: Plan) returns (run: seq<State>, steps: seq<Step>, j: nat)
    requires plan.Valid()
    ensures IsRun(plan, run, steps) && j < |steps| && |run| == |steps| + 1
    ensures Begins(steps[j], run[j + 1]) && run[j].writes != [] && !AllDue(plan, run[j].writes, run[j].now)
    ensures var s := run[|steps|]; s.writes != [] && s.dir == map[]
  {
    var s := State(0, map[], None, map[], []);
    run, steps := [s], [];
    run, steps := GetsToWriting(plan, run, steps, 0, {});
    run, steps := WritesAtOnce(plan, run, steps, 0);
    var after := run[|steps|];
    j := |steps| + 4;
    assert after.writes == [Write(0, 0, 0)] && after.dir == map[1 := 0];
    assert after.writes[0] in after.writes && !DueAfter(plan, after.writes[0], 0);
    run, steps := GetsToWriting(plan, run, steps, 1, {});
    run, steps := FailsAndRemoves(plan, run, steps, 1);
  }

  // ---- A due backup gets written ----

  /** The doomed files go one after the other. */
  lemma {:induction false} RemovesAll(plan: Plan, run: seq<State>, steps: seq<Step>, p: Proc)
    returns (run': seq<State>, steps': seq<Step>)
    requires IsRun(plan, run, steps) && |run| == |steps| + 1
    requires var s := run[|steps|]; At(s, p).Rotating? && s.lock == Some(p) && At(s, p).doomed <= s.dir.Keys
    ensures IsRun(plan, run', steps') && run <= run' && steps <= steps' && |run'| == |steps'| + 1
    ensures var s := run[|steps|];
            run'[|steps'|] == Enters(s, p, At(s, p).(doomed := {})).(dir := s.dir - At(s, p).doomed)
    decreases At(run[|steps|], p).doomed
  {
    var s := run[|steps|];
    var pc := At(s, p);
    if pc.doomed == {} {
      run', steps' := run, steps;
      assert s.dir - {} == s.dir && Enters(s, p, pc) == s;
    } else {
      var n := Member(pc.doomed);
      var s1 := Enters(s, p, pc.(doomed := pc.doomed - {n})).(dir := s.dir - {n});
      assert Next(plan, s, By(p, RemoveOld(n, true)), s1);
      hide Next, IsRun;
      Continue(plan, run, steps, By(p, RemoveOld(n, true)), s1);
      run', steps' := RemovesAll(plan, run + [s1], steps + [By(p, RemoveOld(n, true))], p);
      assert (s.dir - {n}) - (pc.doomed - {n}) == s.dir - pc.doomed;
    }
  }

  /** The archive is renamed into place and everything beyond the retained ones is removed. */
  lemma WritesAndRotates(plan: Plan, run: seq<State>, steps: seq<Step>, p: Proc)
    returns (run': seq<State>, steps': seq<Step>)
    requires IsRun(plan, run, steps) && |run| == |steps| + 1 && run[|steps|].lock == Some(p)
    requires var s := run[|steps|]; At(s, p) == Writing(s.now, s.now)
    ensures IsRun(plan, run', steps') && run <= run' && steps <= steps' && |run'| == |steps'| + 1
    ensures var s := run[|steps|];
            var full := s.dir[NameAt(s.now) := s.now];
            run'[|steps'|] == Enters(s, p, Ended(s.now, Written)).(
              lock := None, dir := Kept(full, plan.retain, full.Keys, {}), writes := s.writes + [Write(s.now, s.now, s.now)])
  {
    var s := run[|steps|];
    var full, writes := s.dir[NameAt(s.now) := s.now], s.writes + [Write(s.now, s.now, s.now)];
    var kept := Kept(full, plan.retain, full.Keys, {});
    var s1 := Enters(s, p, Published(s.now, s.now, s.now)).(dir := full);
    var s2 := Enters(s, p, Rotating(s.now, s.now, full.Keys - kept.Keys)).(dir := full, writes := writes);
    var s3 := Enters(s, p, Rotating(s.now, s.now, {})).(dir := kept, writes := writes);
    var s4 := Enters(s, p, Ended(s.now, Written)).(lock := None, dir := kept, writes := writes);
    assert Next(plan, s, By(p, Publish(s.now)), s1) && Next(plan, s1, By(p, Complete(full.Keys)), s2);
    assert Next(plan, s3, By(p, EndRotation), s4);
    assert full - (full.Keys - kept.Keys) == kept;
    hide Next, IsRun, Kept;
    Continue(plan, run, steps, By(p, Publish(s.now)), s1);
    Continue(plan, run + [s1], steps + [By(p, Publish(s.now))], By(p, Complete(full.Keys)), s2);
    run', steps' := run + [s1] + [s2], steps + [By(p, Publish(s.now))] + [By(p, Complete(full.Keys))];
    run', steps' := RemovesAll(plan, run', steps', p);
    assert run'[|steps'|] == s3;
    Continue(plan, run', steps', By(p, EndRotation), s4);
    run', steps' := run' + [s4], steps' + [By(p, EndRotation)];
  }

  /**
    From every state of every run with the lock free, a process that finds every
    artifact it can read at least an interval old, or dated in the future, can go
    on alone to write an archive and leave exactly those with fewer than `retain`
    later names.
  */
  lemma DueBackupIsWritten(plan: Plan, run: seq<State>, steps: seq<Step>, p: Proc, read: set<Name>)
    returns (run': seq<State>, steps': seq<Step>)
    requires IsRun(plan, run, steps) && run[|steps|].lock == None && At(run[|steps|], p) == Gone
    requires var s := run[|steps|];
             forall n :: n in s.dir && n in read ==> s.dir[n] > s.now || s.dir[n] + plan.interval <= s.now
    ensures IsRun(plan, run', steps') && run <= run' && |run'| == |steps'| + 1
    ensures var s, s' := run[|steps|], run'[|steps'|];
            var full := s.dir[NameAt(s.now) := s.now];
            && At(s', p) == Ended(s.now, Written) && s'.lock == None && s'.now == s.now
            && s'.writes == s.writes + [Write(s.now, s.now, s.now)]
            && (forall n :: n in s'.dir <==> n in full && |set m | m in full && m > n| < plan.retain)
            && (forall n :: n in s'.dir ==> s'.dir[n] == full[n])
  {
    var s := run[|steps|];
    var full := s.dir[NameAt(s.now) := s.now];
    run', steps' := GetsToWriting(plan, run, steps, p, read);
    assert |run'| == |steps'| + 1 by { RunLength(plan, run', steps'); }
    run', steps' := WritesAndRotates(plan, run', steps', p);
    forall n ensures Later(Seen(full, full.Keys), n) == set m | m in full && m > n {}
  }

  /** Either look ends the attempt exactly when an artifact it reads is younger than an interval at its clock. */
  lemma LookDecides(plan: Plan, s: State, p: Proc, read: set<Name>, s': State)
    requires Next(plan, s, By(p, Check(read)), s') || Next(plan, s, By(p, Recheck(read)), s')
    ensures At(s, p).Checking? || At(s, p).Rechecking?
    ensures var pc := At(s, p);
            if exists n :: n in s.dir && n in read && s.dir[n] <= pc.clock < s.dir[n] + plan.interval then
              At(s', p) == Ended(pc.start, NotDue) && s'.lock != Some(p)
            else At(s', p) == if pc.Checking? then Locking(pc.start) else Writing(pc.start, s.now)
  {
    var pc := At(s, p);
    if n :| n in s.dir && n in read && s.dir[n] <= pc.clock < s.dir[n] + plan.interval {
      assert Visible(Seen(s.dir, read), pc.clock, n);
    }
  }

  // ---- What may go wrong ----

  ghost predicate CanBecome(plan: Plan, s: State, p: Proc, pc: Pc, dir: Dir, lock: Option<Proc>) {
    exists act: Act, s' :: Next(plan, s, By(p, act), s') && s' == State(s.now, dir, lock, s.procs[p := pc], s.writes)
  }

  lemma Becomes(plan: Plan, s: State, p: Proc, act: Act, pc: Pc, dir: Dir, lock: Option<Proc>)
    requires Enabled(plan, s, act, At(s, p)) && NextPc(plan, s, act, At(s, p)) == pc
    requires NextDir(plan, s, act, At(s, p)) == dir && NextLock(plan, s, act, p) == lock && !act.Complete?
    ensures CanBecome(plan, s, p, pc, dir, lock)
  {
    assert Next(plan, s, By(p, act), State(s.now, dir, lock, s.procs[p := pc], s.writes));
  }

  /** Any process may end at any moment, whatever it was doing; the lock goes with it, the files stay. */
  lemma AnyoneMayCrash(plan: Plan, s: State, p: Proc)
    ensures CanBecome(plan, s, p, Gone, s.dir, if s.lock == Some(p) then None else s.lock)
  {
    Becomes(plan, s, p, Crash, Gone, s.dir, if s.lock == Some(p) then None else s.lock);
  }

  /** The lock file may not open, a write may fail before or after its rename with its file removed or not, a removal may fail. */
  lemma AnythingMayFail(plan: Plan, s: State, p: Proc)
    requires Inv(plan, s)
    ensures var pc := At(s, p);
            && (pc.Locking? ==> CanBecome(plan, s, p, Ended(pc.start, Failed), s.dir, s.lock))
            && (pc.Writing? || pc.Published? ==>
                  && CanBecome(plan, s, p, Ended(pc.start, Failed), s.dir, None)
                  && CanBecome(plan, s, p, Ended(pc.start, Failed), s.dir - {NameAt(pc.begin)}, None))
            && (pc.Rotating? ==> forall n :: n in pc.doomed ==>
                  CanBecome(plan, s, p, pc.(doomed := pc.doomed - {n}), s.dir, s.lock))
  {
    var pc := At(s, p);
    if pc.Locking? {
      assert !Holds(pc);
      Becomes(plan, s, p, LockFails, Ended(pc.start, Failed), s.dir, s.lock);
    }
    if IsWriter(pc) {
      assert Holds(pc);
      Becomes(plan, s, p, FailWrite(false), Ended(pc.start, Failed), s.dir, None);
      Becomes(plan, s, p, FailWrite(true), Ended(pc.start, Failed), s.dir - {NameAt(pc.begin)}, None);
    }
    if pc.Rotating? {
      assert Holds(pc);
      forall n | n in pc.doomed ensures CanBecome(plan, s, p, pc.(doomed := pc.doomed - {n}), s.dir, s.lock) {
        Becomes(plan, s, p, RemoveOld(n, false), pc.(doomed := pc.doomed - {n}), s.dir, s.lock);
      }
    }
  }

  /** Time may pass; a scheduler may start, and at its time wake and look; an attempt that ended may be the last. */
  lemma AnyoneMayGoOn(plan: Plan, s: State, p: Proc, later: Time)
    requires Inv(plan, s) && s.now <= later
    ensures exists s' :: Next(plan, s, Tick(later), s') && s' == s.(now := later)
    ensures var pc := At(s, p);
            && (pc == Gone ==> CanBecome(plan, s, p, Sleeping(s.now + STARTUP_DELAY), s.dir, s.lock))
            && (pc.Sleeping? && pc.until <= s.now ==> CanBecome(plan, s, p, Checking(s.now, s.now), s.dir, s.lock))
            && (pc.Ended? ==> CanBecome(plan, s, p, Gone, s.dir, s.lock))
  {
    var pc := At(s, p);
    assert Next(plan, s, Tick(later), s.(now := later));
    assert !Holds(pc) ==> s.lock != Some(p);
    if pc == Gone { Becomes(plan, s, p, StartScheduler, Sleeping(s.now + STARTUP_DELAY), s.dir, s.lock); }
    if pc.Sleeping? && pc.until <= s.now { Becomes(plan, s, p, Wake, Checking(s.now, s.now), s.dir, s.lock); }
    if pc.Ended? { Becomes(plan, s, p, Exit, Gone, s.dir, s.lock); }
  }

  /** A scheduler whose attempt has ended, and that can still read some of the directory or none, may go to sleep. */
  lemma SchedulerMaySleep(plan: Plan, s: State, p: Proc, read: set<Name>) returns (due: Time)
    requires Inv(plan, s) && At(s, p).Ended?
    ensures CanBecome(plan, s, p, Sleeping(s.now + Wait(plan, At(s, p).outcome, s.now, due)), s.dir, s.lock)
    ensures FallsDue(plan, s.dir, read, s.now, due)
  {
    var pc, seen := At(s, p), Seen(s.dir, read);
    due := s.now;
    if n :| Visible(seen, s.now, n) {
      SomeNewest(seen, s.now, n);
      var m :| IsNewest(seen, s.now, m);
      due := m + plan.interval;
    }
    assert IsDueTime(plan, seen, s.now, due);
    assert s.lock != Some(p);
    SeenDueIsFallsDue(plan, s.dir, read, s.now, due);
    Becomes(plan, s, p, GoToSleep(read, due), Sleeping(s.now + Wait(plan, pc.outcome, s.now, due)), s.dir, s.lock);
  }

  // ---- Rotation within a run ----

  /** Among the steps from `k` up to `j`, `p` tried to remove this file. */
  ghost predicate Tried(steps: seq<Step>, p: Proc, n: Name, ok: bool, k: nat, j: nat)
    requires j <= |steps|
  {
    exists i :: k <= i < j && steps[i] == By(p, RemoveOld(n, ok))
  }

  /** Since step `k`, `p` has done nothing but remove old files. */
  ghost predicate OnlyRemoves(steps: seq<Step>, p: Proc, k: nat, j: nat)
    requires j <= |steps|
  {
    forall i :: k <= i < j && steps[i].By? && steps[i].p == p ==> steps[i].act.RemoveOld?
  }

  lemma RotationStep(plan: Plan, s: State, step: Step, s': State, p: Proc)
    requires Inv(plan, s) && Next(plan, s, step, s') && At(s, p).Rotating?
    requires step.By? && step.p == p ==> step.act.RemoveOld?
    ensures At(s', p).Rotating?
    ensures if step.By? && step.p == p then
              && step.act.n in At(s, p).doomed && At(s', p).doomed == At(s, p).doomed - {step.act.n}
              && s'.dir == if step.act.ok then s.dir - {step.act.n} else s.dir
            else At(s', p) == At(s, p) && s'.dir == s.dir
  {
    if step.By? && step.p != p { assert Holds(At(s, p)) && !Holds(At(s, step.p)); }
  }

  lemma {:induction false} RotationSoFar(plan: Plan, run: seq<State>, steps: seq<Step>, p: Proc, k: nat, j: nat, n: Name)
    requires plan.Valid() && IsRun(plan, run, steps) && k <= j <= |steps| && At(run[k], p).Rotating?
    requires OnlyRemoves(steps, p, k, j)
    ensures At(run[j], p).Rotating?
    ensures n in run[j].dir <==> n in run[k].dir && !Tried(steps, p, n, true, k, j)
    ensures n in At(run[k], p).doomed ==>
              n in At(run[j], p).doomed || Tried(steps, p, n, true, k, j) || Tried(steps, p, n, false, k, j)
    ensures forall ok :: Tried(steps, p, n, ok, k, j) ==> n in At(run[k], p).doomed
    ensures At(run[j], p).doomed <= At(run[k], p).doomed
    decreases j
  {
    if k < j {
      var i: nat := j - 1;
      hide Inv, Next;
      assert Next(plan, run[i], steps[i], run[j]);
      RotationSoFar(plan, run, steps, p, k, i, n);
      RunKeepsInv(plan, run, steps, i);
      RotationStep(plan, run[i], steps[i], run[j], p);
      forall ok ensures Tried(steps, p, n, ok, k, j) <==> Tried(steps, p, n, ok, k, i) || steps[i] == By(p, RemoveOld(n, ok)) {
        if steps[i] == By(p, RemoveOld(n, ok)) { assert k <= i < j; }
      }
    }
  }

  /**
    Rotation in any run: from the end of a write to the end of its rotation, the
    files taken away are exactly those listed with at least `retain` later listed
    names whose removal did not fail, and of each of those the removal was tried.
  */
  lemma RotationEnds(plan: Plan, run: seq<State>, steps: seq<Step>, p: Proc, listed: set<Name>, k: nat, j: nat, n: Name)
    requires plan.Valid() && IsRun(plan, run, steps) && k < j < |steps|
    requires steps[k] == By(p, Complete(listed)) && steps[j] == By(p, EndRotation) && OnlyRemoves(steps, p, k + 1, j)
    ensures var surplus := n in run[k].dir && n in listed && |set m | m in run[k].dir && m in listed && m > n| >= plan.retain;
            && (n in run[j + 1].dir <==> n in run[k].dir && !Tried(steps, p, n, true, k + 1, j))
            && (surplus <==> Tried(steps, p, n, true, k + 1, j) || Tried(steps, p, n, false, k + 1, j))
  {
    assert Next(plan, run[k], steps[k], run[k + 1]) && Next(plan, run[j], steps[j], run[j + 1]);
    RotationSoFar(plan, run, steps, p, k + 1, j, n);
    assert Later(Seen(run[k].dir, listed), n) == set m | m in run[k].dir && m in listed && m > n;
  }

  // ---- How long a scheduler sleeps ----

  /** `due` is when the newest artifact read and visible at `now` is an interval old, or `now` when there is none. */
  ghost predicate FallsDue(plan: Plan, dir: Dir, read: set<Name>, now: Time, due: Time) {
    if exists n :: n in dir && n in read && dir[n] <= now then
      && (exists n :: n in dir && n in read && dir[n] <= now && due == dir[n] + plan.interval)
      && (forall n :: n in dir && n in read && dir[n] <= now ==> dir[n] + plan.interval <= due)
    else due == now
  }

  lemma SeenDueIsFallsDue(plan: Plan, dir: Dir, read: set<Name>, now: Time, due: Time)
    requires IsDueTime(plan, Seen(dir, read), now, due)
    ensures FallsDue(plan, dir, read, now, due)
  {
    var seen := Seen(dir, read);
    if n :| n in dir && n in read && dir[n] <= now {
      assert Visible(seen, now, n);
      SomeNewest(seen, now, n);
      var k :| Visible(seen, now, k) && seen[k] == due - plan.interval;
      assert k in dir && k in read && dir[k] <= now;
      forall i | i in dir && i in read && dir[i] <= now ensures dir[i] + plan.interval <= due {
        assert Visible(seen, now, i);
      }
    } else {
      assert forall m :: !IsNewest(seen, now, m);
    }
  }

  /**
    The length of every sleep of every run: after NotDue until what was read falls
    due, after a write or a failure a whole interval, after Busy a minute (or the
    interval, if shorter); a second at least.
  */
  lemma SleepIsExact(plan: Plan, run: seq<State>, steps: seq<Step>, k: nat, p: Proc, read: set<Name>, seen: Time)
    requires plan.Valid() && IsRun(plan, run, steps) && k < |steps| && steps[k] == By(p, GoToSleep(read, seen))
    ensures FallsDue(plan, run[k].dir, read, run[k].now, seen)
    ensures At(run[k], p).Ended? && At(run[k + 1], p).Sleeping?
    ensures var now, until := run[k].now, At(run[k + 1], p).until;
            match At(run[k], p).outcome
            case NotDue => until == if now + 1000 < seen then seen else now + 1000
            case Written => until == now + plan.interval
            case Failed => until == now + plan.interval
            case Busy => until == now + 60_000
  {
    assert Next(plan, run[k], steps[k], run[k + 1]);
    SeenDueIsFallsDue(plan, run[k].dir, read, run[k].now, seen);
  }

  /** A sleeping process does nothing of its own before it is time, and then looks again. */
  lemma {:induction false} SleepsThrough(plan: Plan, run: seq<State>, steps: seq<Step>, k: nat, j: nat, p: Proc)
    requires IsRun(plan, run, steps) && k <= j < |steps| && At(run[k], p).Sleeping? && steps[j].By? && steps[j].p == p
    requires forall i :: k <= i < j ==> !(steps[i].By? && steps[i].p == p)
    ensures At(run[j], p) == At(run[k], p)
    ensures steps[j].act != Crash ==>
              && steps[j].act == Wake && run[j].now >= At(run[k], p).until
              && At(run[j + 1], p) == Checking(run[j].now, run[j].now)
    decreases j
  {
    assert Next(plan, run[j], steps[j], run[j + 1]);
    StaysAsleep(plan, run, steps, k, j, p);
  }

  lemma {:induction false} StaysAsleep(plan: Plan, run: seq<State>, steps: seq<Step>, k: nat, j: nat, p: Proc)
    requires IsRun(plan, run, steps) && k <= j <= |steps|
    requires forall i :: k <= i < j ==> !(steps[i].By? && steps[i].p == p)
    ensures At(run[j], p) == At(run[k], p)
    decreases j
  {
    if k < j {
      assert Next(plan, run[j - 1], steps[j - 1], run[j]);
      StaysAsleep(plan, run, steps, k, j - 1, p);
    }
  }

  /** A started scheduler leaves the first five seconds alone. */
  lemma FirstCheckWaits(plan: Plan, run: seq<State>, steps: seq<Step>, k: nat, p: Proc)
    requires IsRun(plan, run, steps) && k < |steps| && steps[k] == By(p, StartScheduler)
    ensures At(run[k + 1], p) == Sleeping(run[k].now + 5_000)
  {
    assert Next(plan, run[k], steps[k], run[k + 1]);
  }

  // ---- Lateness ----

  function Grace(plan: Plan): Time { Max(MIN_WAIT, Min(BUSY_RETRY, plan.interval)) }

  /** A process that has just written sees an archive no older than its own attempt, if the newest is there. */
  lemma OwnArchiveIsNewest(plan: Plan, s: State, start: Time, due: Time)
    requires Inv(plan, s) && IsDueTime(plan, s.dir, s.now, due) && NewestIsThere(s.dir, s.writes)
    requires exists w :: w in s.writes && start <= w.begin
    ensures start + plan.interval <= due
  {
    var w :| w in s.writes && start <= w.begin;
    var i :| 0 <= i < |s.writes| && s.writes[i] == w;
    var last := Last(s.writes);
    assert last in s.writes && WellTimed(last) && WellTimed(w);
    if i < |s.writes| - 1 { assert w.end <= last.begin; }
    assert Visible(s.dir, s.now, NameAt(last.begin));
    SomeNewest(s.dir, s.now, NameAt(last.begin));
  }

  lemma SomeNewest(dir: Dir, now: Time, n: Name)
    requires Visible(dir, now, n)
    ensures exists m :: IsNewest(dir, now, m)
    decreases now - dir[n]
  {
    if k :| Visible(dir, now, k) && dir[k] > dir[n] {
      SomeNewest(dir, now, k);
    } else {
      assert IsNewest(dir, now, dir[n]);
    }
  }

  /** The due time a look at part of the directory gives is no later, or the present. */
  lemma SeenDueTime(plan: Plan, dir: Dir, read: set<Name>, now: Time, seen: Time, due: Time)
    requires IsDueTime(plan, Seen(dir, read), now, seen) && IsDueTime(plan, dir, now, due)
    ensures seen <= due || seen == now
  {
    if m :| IsNewest(Seen(dir, read), now, m) {
      var n :| Visible(Seen(dir, read), now, n) && dir[n] == m;
      assert Visible(dir, now, n);
      SomeNewest(dir, now, n);
    }
  }

  /**
    Bounded lateness. Going to sleep after an attempt that did not fail, a
    scheduler wakes no later than the due time (or the attempt's own start, when
    the backup was already due by then) plus the grace plus the time the attempt
    took, whatever it reads of the directory, unless the archive it wrote has
    been lost; and every sleep is at least the floor.
  */
  lemma NextAttemptIsPrompt(plan: Plan, s: State, p: Proc, read: set<Name>, seen: Time, due: Time, s': State)
    requires plan.Valid() && Inv(plan, s) && Next(plan, s, By(p, GoToSleep(read, seen)), s')
    requires IsDueTime(plan, s.dir, s.now, due)
    ensures At(s', p).Sleeping? && At(s', p).until >= s.now + MIN_WAIT
    ensures var attempt := At(s, p);
            var work := s.now - attempt.start;
            attempt.outcome != Failed && (attempt.outcome == Written ==> NewestIsThere(s.dir, s.writes)) ==>
              At(s', p).until <= Max(attempt.start, due) + Grace(plan) + work
  {
    var attempt := At(s, p);
    assert PcOk(plan, s, attempt);
    SeenDueTime(plan, s.dir, read, s.now, seen, due);
    if attempt.outcome == Written && NewestIsThere(s.dir, s.writes) { OwnArchiveIsNewest(plan, s, attempt.start, due); }
  }

  /** The same over whole runs, at every step in which some process goes to sleep. */
  lemma EverySleepIsPrompt(
      plan: Plan, run: seq<State>, steps: seq<Step>, k: nat, p: Proc, read: set<Name>, seen: Time, due: Time)
    requires plan.Valid() && IsRun(plan, run, steps) && k < |steps| && steps[k] == By(p, GoToSleep(read, seen))
    requires IsDueTime(plan, run[k].dir, run[k].now, due)
    ensures var attempt, after := At(run[k], p), At(run[k + 1], p);
            && attempt.Ended? && after.Sleeping? && after.until >= run[k].now + MIN_WAIT
            && (attempt.outcome != Failed && (attempt.outcome == Written ==> NewestIsThere(run[k].dir, run[k].writes)) ==>
                  after.until <= Max(attempt.start, due) + Grace(plan) + (run[k].now - attempt.start))
  {
    hide Inv;
    RunKeepsInv(plan, run, steps, k);
    NextAttemptIsPrompt(plan, run[k], p, read, seen, due, run[k + 1]);
  }

  /** Whether the wake-up chosen from the due time seen also meets the bound counted from the due time alone. */
  ghost predicate KeepsToDueTime(plan: Plan, attempt: Pc, now: Time, seen: Time, due: Time)
    requires attempt.Ended?
  {
    now + Wait(plan, attempt.outcome, now, seen) <= due + Grace(plan) + (now - attempt.start)
  }

  /**
    Counted from the due time alone the bound holds exactly when the attempt did
    not start too late: after Busy, not after the due time; after NotDue, at most
    the rest of the grace after it; after a write, never too late as long as the
    newest archive is there.
  */
  lemma LatenessFromTheDueTime(plan: Plan, s: State, p: Proc, read: set<Name>, seen: Time, due: Time)
    requires plan.Valid() && Inv(plan, s) && At(s, p).Ended?
    requires IsDueTime(plan, Seen(s.dir, read), s.now, seen) && IsDueTime(plan, s.dir, s.now, due)
    ensures var attempt := At(s, p);
            KeepsToDueTime(plan, attempt, s.now, seen, due) <==>
            match attempt.outcome
            case Written => attempt.start + plan.interval <= due + Grace(plan)
            case Busy => attempt.start <= due
            case NotDue => attempt.start + MIN_WAIT <= due + Grace(plan)
            case Failed => attempt.start + plan.interval <= due + Grace(plan)
    ensures At(s, p).outcome == Written && NewestIsThere(s.dir, s.writes) ==>
              KeepsToDueTime(plan, At(s, p), s.now, seen, due)
  {
    var attempt := At(s, p);
    assert PcOk(plan, s, attempt);
    SeenDueTime(plan, s.dir, read, s.now, seen, due);
    if attempt.outcome == Written && NewestIsThere(s.dir, s.writes) { OwnArchiveIsNewest(plan, s, attempt.start, due); }
  }

  /** A run in which a process finds the lock taken after the due time has passed: it retries from its attempt. */
  lemma BusyAfterTheDueTime(plan: Plan) returns (run: seq<State>, steps: seq<Step>, due: Time)
    requires plan.Valid()
    ensures IsRun(plan, run, steps) && |run| == |steps| + 1
    ensures var s := run[|steps|];
            && At(s, 1).Ended? && At(s, 1).outcome == Busy && IsDueTime(plan, s.dir, s.now, due)
            && !KeepsToDueTime(plan, At(s, 1), s.now, due, due)
  {
    var now := plan.interval + SECOND;
    var dir: Dir := map[NameAt(0) := 0];
    var s := State(now, dir, None, map[], []);
    NamesFollowTime(0, now);
    run, steps := [s], [];
    run, steps := TakesTheLock(plan, run, steps, 0, {NameAt(0)});
    run, steps := FindsItBusy(plan, run, steps, 1, {NameAt(0)});
    due := plan.interval;
    var last := run[|steps|];
    assert Visible(last.dir, now, NameAt(0));
    assert IsNewest(last.dir, now, 0);
  }

  lemma FindsItBusy(plan: Plan, run: seq<State>, steps: seq<Step>, p: Proc, read: set<Name>)
    returns (run': seq<State>, steps': seq<Step>)
    requires IsRun(plan, run, steps) && run[|steps|].lock.Some? && At(run[|steps|], p) == Gone
    requires run[|steps|].lock != Some(p)
    requires var s := run[|steps|]; Due(plan, Seen(s.dir, read), s.now)
    ensures IsRun(plan, run', steps')
    ensures var s := run[|steps|]; run'[|steps'|] == Enters(s, p, Ended(s.now, Busy))
  {
    var s := run[|steps|];
    var s1 := Enters(s, p, Checking(s.now, s.now));
    var s2 := Enters(s, p, Locking(s.now));
    var s3 := Enters(s, p, Ended(s.now, Busy));
    assert Next(plan, s, By(p, RunOnce), s1) && Next(plan, s1, By(p, Check(read)), s2);
    assert Next(plan, s2, By(p, TryLock), s3);
    hide Next, IsRun;
    run', steps' := ThreeSteps(plan, run, steps, By(p, RunOnce), s1, By(p, Check(read)), s2, By(p, TryLock), s3);
  }
}
