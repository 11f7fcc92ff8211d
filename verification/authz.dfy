/**
  The project gates of `src/authz.rs`: a check of one project at a time, and a
  filter for reads across projects, each in a legacy and an enforced mode.
*/
module Authz {
  import opened Accounts
  import opened Common

  type ProjectId = int

  datatype Role = Viewer | Maintainer | Lead

  function Rank(r: Role): nat { match r case Viewer => 0 case Maintainer => 1 case Lead => 2 }

  predicate AtLeast(r: Role, min: Role) { Rank(r) >= Rank(min) }

  /** What the gates read: accounts, each project's lead pointer, memberships and the instance setting. */
  datatype Db = Db(
    users: Users, leads: map<ProjectId, Option<UserId>>, members: map<(ProjectId, UserId), Role>, enforced: bool)
  {
    predicate Exists(p: ProjectId) { p in leads }

    function RoleOf(p: ProjectId, u: UserId): Option<Role> { if (p, u) in members then Some(members[(p, u)]) else None }

    /** Memberships reference projects by foreign key. */
    ghost predicate Valid() { forall p, u :: (p, u) in members ==> Exists(p) }
  }

  /** Who a credential resolved to, with the admin flag it was resolved with. */
  datatype Identity = Identity(id: UserId, admin: bool)

  datatype Denial = Forbidden | NotFound

  /** `effective_user`: a bot is governed by its owner, if it has one that exists. */
  function Effective(db: Db, who: Option<Identity>): Option<Identity> {
    if who == None then None
    else if who.value.id in db.users && db.users[who.value.id].isBot && db.users[who.value.id].owner.Some? then
      var owner := db.users[who.value.id].owner.value;
      if owner in db.users then Some(Identity(owner, db.users[owner].admin)) else who
    else who
  }

  predicate IsAdmin(who: Option<Identity>) { who.Some? && who.value.admin }

  function RequireEnforced(db: Db, user: Option<Identity>, p: ProjectId, min: Role): Result<(), Denial> {
    if user == None then Err(Forbidden)
    else
      match db.RoleOf(p, user.value.id)
      case Some(role) => if AtLeast(role, min) then Ok(()) else Err(Forbidden)
      case None => Err(Forbidden)
  }

  function RequireLeadLegacy(db: Db, user: Option<Identity>, p: ProjectId): Result<(), Denial> {
    if user == None then Err(Forbidden)
    else if !db.Exists(p) then Err(NotFound)
    else if db.leads[p] == Some(user.value.id) || db.RoleOf(p, user.value.id) == Some(Lead) then Ok(())
    else Err(Forbidden)
  }

  function RequireLegacy(db: Db, user: Option<Identity>, p: ProjectId, min: Role): Result<(), Denial> {
    match min
    case Lead => RequireLeadLegacy(db, user, p)
    case _ => Ok(())
  }

  /** `require_role_conn` */
  function RequireRole(db: Db, who: Option<Identity>, p: ProjectId, min: Role): Result<(), Denial> {
    var user := Effective(db, who);
    if IsAdmin(user) then Ok(())
    else if db.enforced then RequireEnforced(db, user, p, min)
    else RequireLegacy(db, user, p, min)
  }

  /** `visible_project_ids`: `None` is unrestricted. */
  function VisibleProjects(db: Db, who: Option<Identity>): Option<set<ProjectId>> {
    var user := Effective(db, who);
    if IsAdmin(user) || !db.enforced then None
    else if user == None then Some({})
    else Some(set m | m in db.members && m.1 == user.value.id :: m.0)
  }

  /** `filter_visible` */
  function FilterVisible<T>(items: seq<T>, visible: Option<set<ProjectId>>, projectOf: T -> Option<ProjectId>): seq<T> {
    match visible
    case None => items
    case Some(ids) =>
      if items == [] then []
      else
        var last := items[|items| - 1];
        FilterVisible(items[..|items| - 1], visible, projectOf) +
        if projectOf(last).Some? && projectOf(last).value in ids then [last] else []
  }

  function RequireStructure(db: Db, who: Option<Identity>, p: ProjectId): Result<(), Denial> {
    RequireRole(db, who, p, if db.enforced then Maintainer else Lead)
  }

  /** `require_project_delete_role_conn` */
  function RequireDelete(db: Db, who: Option<Identity>, p: ProjectId): Result<(), Denial> {
    if db.enforced then RequireRole(db, who, p, Lead)
    else if IsAdmin(who) then Ok(())
    else Err(Forbidden)
  }

  function RequireWorkspaceAdmin(db: Db, who: Option<Identity>): Result<(), Denial> {
    if !db.enforced || IsAdmin(Effective(db, who)) then Ok(()) else Err(Forbidden)
  }

  /** `can_view_project` asks about the identity itself, not its owner. */
  function CanView(db: Db, who: Identity, p: ProjectId): bool {
    who.admin || !db.enforced || db.RoleOf(p, who.id).Some?
  }

  // ---- What each gate answers ----

  /** The account that governs a caller: a bot's owner as far as it exists, else the caller. */
  ghost predicate Governs(db: Db, who: Identity, id: UserId, admin: bool) {
    if exists o :: OwnsBot(db.users, o, who.id) && o in db.users then
      OwnsBot(db.users, id, who.id) && id in db.users && admin == db.users[id].admin
    else id == who.id && admin == who.admin
  }

  /** The membership is at least the role asked for. */
  ghost predicate HasRole(db: Db, id: UserId, p: ProjectId, min: Role) {
    (p, id) in db.members &&
    match min
    case Viewer => true
    case Maintainer => db.members[(p, id)] != Viewer
    case Lead => db.members[(p, id)] == Lead
  }

  /** The project names the account its lead, or a membership does. */
  ghost predicate IsLead(db: Db, id: UserId, p: ProjectId) {
    p in db.leads && (db.leads[p] == Some(id) || ((p, id) in db.members && db.members[(p, id)] == Lead))
  }

  /** Without a caller: nothing when enforced, and in legacy mode everything short of lead. */
  lemma NobodyAtTheGates(db: Db, p: ProjectId, min: Role)
    ensures RequireRole(db, None, p, min) == if !db.enforced && min != Lead then Ok(()) else Err(Forbidden)
    ensures RequireStructure(db, None, p) == Err(Forbidden) && RequireDelete(db, None, p) == Err(Forbidden)
    ensures RequireWorkspaceAdmin(db, None) == if db.enforced then Err(Forbidden) else Ok(())
  {
  }

  /**
    With a caller governed by account `id`: an admin passes; enforced, the
    membership must reach the role; in legacy mode only lead is asked for at all,
    of the project if it exists.
  */
  lemma RoleGateAnswers(db: Db, who: Identity, id: UserId, admin: bool, p: ProjectId, min: Role)
    requires Governs(db, who, id, admin)
    ensures RequireRole(db, Some(who), p, min) ==
            if admin then Ok(())
            else if db.enforced then (if HasRole(db, id, p, min) then Ok(()) else Err(Forbidden))
            else if min != Lead then Ok(())
            else if p !in db.leads then Err(NotFound)
            else if IsLead(db, id, p) then Ok(())
            else Err(Forbidden)
    ensures RequireWorkspaceAdmin(db, Some(who)).Ok? <==> !db.enforced || admin
    ensures RequireStructure(db, Some(who), p).Ok? <==>
            admin || (if db.enforced then HasRole(db, id, p, Maintainer) else IsLead(db, id, p))
  {
  }

  /** Deleting asks, enforced, for a lead, and in legacy mode for the caller's own admin flag, whoever governs it. */
  lemma DeleteGateAnswers(db: Db, who: Identity, id: UserId, admin: bool, p: ProjectId)
    requires Governs(db, who, id, admin)
    ensures RequireDelete(db, Some(who), p) ==
            if if db.enforced then admin || HasRole(db, id, p, Lead) else who.admin then Ok(()) else Err(Forbidden)
  {
  }

  // ---- The gate and the filter agree ----

  /** A project passes the bulk filter. */
  predicate Passes(visible: Option<set<ProjectId>>, p: ProjectId) { visible == None || p in visible.value }

  /** On every project that exists, the bulk filter shows exactly what the point gate lets one view. */
  lemma VisibleIsViewable(db: Db, who: Option<Identity>, p: ProjectId)
    ensures Passes(VisibleProjects(db, who), p) <==> RequireRole(db, who, p, Viewer).Ok?
  {
  }

  /** Whether the caller sees an item: everything for the unrestricted, else what belongs to a viewable project. */
  predicate Sees(db: Db, who: Option<Identity>, project: Option<ProjectId>) {
    RequireWorkspaceAdmin(db, who).Ok? || (project.Some? && RequireRole(db, who, project.value, Viewer).Ok?)
  }

  /** `kept` is `items` at the places `at`, in order. */
  ghost predicate Picks<T>(items: seq<T>, at: seq<nat>, kept: seq<T>) {
    && |kept| == |at|
    && (forall i, j :: 0 <= i < j < |at| ==> at[i] < at[j])
    && (forall i :: 0 <= i < |at| ==> at[i] < |items| && kept[i] == items[at[i]])
  }

  lemma SeesIsPassing(db: Db, who: Option<Identity>, project: Option<ProjectId>)
    ensures var visible := VisibleProjects(db, who);
            Sees(db, who, project) <==> visible == None || (project.Some? && project.value in visible.value)
  {
    if project.Some? { VisibleIsViewable(db, who, project.value); }
  }

  /** One item decides for itself. */
  lemma FilterStep<T>(items: seq<T>, last: T, visible: Option<set<ProjectId>>, projectOf: T -> Option<ProjectId>)
    ensures FilterVisible(items + [last], visible, projectOf) ==
            FilterVisible(items, visible, projectOf) +
            if visible == None || (projectOf(last).Some? && projectOf(last).value in visible.value) then [last] else []
    ensures FilterVisible([], visible, projectOf) == []
  {
    assert (items + [last])[..|items|] == items;
  }

  lemma PicksOneMore<T>(items: seq<T>, at: seq<nat>, kept: seq<T>, last: T, takes: bool)
    requires Picks(items, at, kept)
    ensures Picks(items + [last], if takes then at + [|items|] else at, if takes then kept + [last] else kept)
  {
  }

  /** The filter returns the subsequence of exactly the items the caller sees. */
  lemma {:induction false} FilterKeepsTheViewable<T>(
      db: Db, who: Option<Identity>, items: seq<T>, projectOf: T -> Option<ProjectId>) returns (at: seq<nat>)
    ensures Picks(items, at, FilterVisible(items, VisibleProjects(db, who), projectOf))
    ensures forall k :: 0 <= k < |items| ==> (k in at <==> Sees(db, who, projectOf(items[k])))
  {
    hide FilterVisible, VisibleProjects, Sees, Picks;
    var visible := VisibleProjects(db, who);
    if items == [] {
      at := [];
      assert Picks([], at, FilterVisible(items, visible, projectOf)) by { NothingToFilter(visible, projectOf); }
    } else {
      var n := |items| - 1;
      var front, last := items[..n], items[n];
      assert items == front + [last];
      var before := FilterKeepsTheViewable(db, who, front, projectOf);
      var takes := Sees(db, who, projectOf(last));
      SeesIsPassing(db, who, projectOf(last));
      FilterStep(front, last, visible, projectOf);
      PicksOneMore(front, before, FilterVisible(front, visible, projectOf), last, takes);
      PlacesAreInRange(front, before, FilterVisible(front, visible, projectOf));
      assert FilterVisible(front, visible, projectOf) + [] == FilterVisible(front, visible, projectOf);
      at := if takes then before + [n] else before;
    }
  }

  lemma NothingToFilter<T>(visible: Option<set<ProjectId>>, projectOf: T -> Option<ProjectId>)
    ensures Picks([], [], FilterVisible([], visible, projectOf))
  {
  }

  lemma PlacesAreInRange<T>(items: seq<T>, at: seq<nat>, kept: seq<T>)
    requires Picks(items, at, kept)
    ensures forall k :: k in at ==> k < |items|
  {
  }

  // ---- Order ----

  /** A caller allowed a role is allowed every lower one. */
  lemma AllowanceIsDownwardClosed(db: Db, who: Option<Identity>, p: ProjectId, high: Role, low: Role)
    requires AtLeast(high, low) && RequireRole(db, who, p, high).Ok?
    ensures RequireRole(db, who, p, low).Ok?
  {
  }

  /** Turning enforcement off denies nothing that was allowed. */
  lemma EnforcedAllowsNoMore(db: Db, who: Option<Identity>, p: ProjectId, min: Role)
    requires db.Valid() && RequireRole(db.(enforced := true), who, p, min).Ok?
    ensures RequireRole(db.(enforced := false), who, p, min).Ok?
  {
  }

  /** For the structure gate that fails exactly for a maintainer who is not the lead. */
  lemma StructureGateOrder(db: Db, who: Option<Identity>, p: ProjectId)
    requires db.Valid()
    ensures var on, off := db.(enforced := true), db.(enforced := false);
            var user := Effective(db, who);
            (RequireStructure(on, who, p).Ok? && RequireStructure(off, who, p).Err?) <==>
            && user.Some? && !user.value.admin && db.RoleOf(p, user.value.id) == Some(Maintainer)
            && db.leads[p] != Some(user.value.id)
  {
  }

  /** For the delete gate it fails exactly for a lead, or an admin's bot, that is no admin itself. */
  lemma DeleteGateOrder(db: Db, who: Option<Identity>, p: ProjectId)
    ensures var on, off := db.(enforced := true), db.(enforced := false);
            var user := Effective(db, who);
            (RequireDelete(on, who, p).Ok? && RequireDelete(off, who, p).Err?) <==>
            !IsAdmin(who) && user.Some? && (user.value.admin || db.RoleOf(p, user.value.id) == Some(Lead))
  {
  }

  // ---- Bots ----

  /** A bot and its owner, who is governed by nobody else. */
  ghost predicate BotOf(db: Db, bot: Identity, owner: Identity) {
    && OwnsBot(db.users, owner.id, bot.id) && owner.id in db.users && owner.admin == db.users[owner.id].admin
    && Effective(db, Some(owner)) == Some(owner)
  }

  /** A bot gets exactly its owner's outcome from every gate that asks for a role, and sees what its owner sees. */
  lemma BotActsAsItsOwner(db: Db, bot: Identity, owner: Identity, p: ProjectId, min: Role)
    requires BotOf(db, bot, owner)
    ensures RequireRole(db, Some(bot), p, min) == RequireRole(db, Some(owner), p, min)
    ensures RequireStructure(db, Some(bot), p) == RequireStructure(db, Some(owner), p)
    ensures RequireWorkspaceAdmin(db, Some(bot)) == RequireWorkspaceAdmin(db, Some(owner))
    ensures VisibleProjects(db, Some(bot)) == VisibleProjects(db, Some(owner))
  {
  }

  /** The delete gate does so exactly when it is enforced or the two carry the same admin flag. */
  lemma BotAtTheDeleteGate(db: Db, bot: Identity, owner: Identity, p: ProjectId)
    requires BotOf(db, bot, owner)
    ensures RequireDelete(db, Some(bot), p) == RequireDelete(db, Some(owner), p) <==> db.enforced || bot.admin == owner.admin
  {
  }

  /** A bot that carries no admin flag of its own: in legacy mode its admin may delete the project, the bot may not. */
  lemma BotThatCannotDelete() returns (db: Db, bot: Identity, owner: Identity)
    ensures db.Valid() && BotOf(db, bot, owner) && !db.enforced
    ensures RequireDelete(db, Some(owner), 1).Ok? && RequireDelete(db, Some(bot), 1).Err?
  {
    var users := map[1 := User(true, false, None, true), 2 := User(true, true, Some(1), false)];
    db := Db(users, map[1 := None], map[], false);
    bot, owner := Identity(2, false), Identity(1, true);
  }

  /** An owner that is itself a bot is not followed further. */
  lemma OneHop(db: Db, bot: Identity, middle: UserId)
    requires OwnsBot(db.users, middle, bot.id) && middle in db.users
    ensures Effective(db, Some(bot)) == Some(Identity(middle, db.users[middle].admin))
  {
  }

  /** In legacy mode only leads have a standing. */
  predicate LeadsProject(db: Db, u: UserId, p: ProjectId) {
    db.Exists(p) && (db.leads[p] == Some(u) || db.RoleOf(p, u) == Some(Lead))
  }

  /** On every project the first account has at most the standing of the second. */
  ghost predicate StandsBelow(db: Db, low: UserId, high: UserId) {
    forall p: ProjectId ::
      if db.enforced then
        (p, low) in db.members ==> (p, high) in db.members && AtLeast(db.members[(p, high)], db.members[(p, low)])
      else LeadsProject(db, low, p) ==> LeadsProject(db, high, p)
  }

  /**
    A bot never exceeds the human who owns it: that is the promise. For a bot of a
    bot it fails, because only one step of ownership is followed: it holds over all
    projects and roles exactly when the human is an admin, or the middle bot is none
    and stands nowhere above its human.
  */
  lemma BotOfABot(db: Db, bot: Identity, middle: UserId, human: Identity)
    requires OwnsBot(db.users, middle, bot.id) && middle in db.users
    requires OwnsBot(db.users, human.id, middle) && Effective(db, Some(human)) == Some(human)
    ensures (forall p: ProjectId, min: Role ::
               RequireRole(db, Some(bot), p, min).Ok? ==> RequireRole(db, Some(human), p, min).Ok?) <==>
            human.admin || (!db.users[middle].admin && StandsBelow(db, middle, human.id))
  {
    OneHop(db, bot, middle);
    if !human.admin {
      if db.users[middle].admin {
        var p := UntouchedProject(db);
        assert RequireRole(db, Some(bot), p, Lead).Ok? && !RequireRole(db, Some(human), p, Lead).Ok?;
      } else if !StandsBelow(db, middle, human.id) {
        if db.enforced {
          var p: ProjectId :| (p, middle) in db.members &&
            !((p, human.id) in db.members && AtLeast(db.members[(p, human.id)], db.members[(p, middle)]));
          var min := db.members[(p, middle)];
          assert RequireRole(db, Some(bot), p, min).Ok? && !RequireRole(db, Some(human), p, min).Ok?;
        } else {
          var p: ProjectId :| LeadsProject(db, middle, p) && !LeadsProject(db, human.id, p);
          assert RequireRole(db, Some(bot), p, Lead).Ok? && !RequireRole(db, Some(human), p, Lead).Ok?;
        }
      } else if !db.enforced {
        forall p: ProjectId | RequireRole(db, Some(bot), p, Lead).Ok? ensures RequireRole(db, Some(human), p, Lead).Ok? {
          assert LeadsProject(db, middle, p);
        }
      }
    }
  }

  /** A middle bot that is a maintainer of a project its human is not in: the bot of that bot exceeds the human. */
  lemma BotAboveItsHuman() returns (db: Db, bot: Identity, middle: UserId, human: Identity)
    ensures db.Valid() && OwnsBot(db.users, middle, bot.id) && middle in db.users
    ensures OwnsBot(db.users, human.id, middle) && Effective(db, Some(human)) == Some(human)
    ensures RequireRole(db, Some(bot), 1, Maintainer).Ok? && RequireRole(db, Some(human), 1, Viewer).Err?
  {
    var users := map[1 := User(true, false, None, false), 2 := User(true, true, Some(1), false),
                     3 := User(true, true, Some(2), false)];
    db := Db(users, map[1 := None], map[(1, 2) := Maintainer], true);
    bot, middle, human := Identity(3, false), 2, Identity(1, false);
  }

  lemma UntouchedProject(db: Db) returns (p: ProjectId)
    ensures !db.Exists(p) && forall u :: (p, u) !in db.members
  {
    var taken := (set m | m in db.members && m.0 >= 0 :: m.0 as nat) + set q | q in db.leads && q >= 0 :: q as nat;
    p := FreshNat(taken);
    assert forall m :: m in db.members && m.0 >= 0 ==> m.0 as nat in taken;
    assert forall q :: q in db.leads && q >= 0 ==> q as nat in taken;
  }

  /** `can_view_project` agrees with the gate for whoever is governed by themselves. */
  lemma CanViewIsTheGate(db: Db, who: Identity, p: ProjectId)
    requires Effective(db, Some(who)) == Some(who)
    ensures CanView(db, who, p) <==> RequireRole(db, Some(who), p, Viewer).Ok?
  {
  }

  /**
    For a bot it agrees with the gate exactly when enforcement is off, or bot and
    owner are each admin or member of the project, or neither is.
  */
  lemma CanViewForABot(db: Db, bot: Identity, owner: Identity, p: ProjectId)
    requires BotOf(db, bot, owner)
    ensures CanView(db, bot, p) == RequireRole(db, Some(bot), p, Viewer).Ok? <==>
            !db.enforced || ((bot.admin || (p, bot.id) in db.members) <==> (owner.admin || (p, owner.id) in db.members))
  {
  }

  /** A bot that is not a member, of an owner who is: the gate lets it view the project, the view check does not. */
  lemma BotThatCannotView() returns (db: Db, bot: Identity, owner: Identity)
    ensures db.Valid() && BotOf(db, bot, owner)
    ensures RequireRole(db, Some(bot), 1, Viewer).Ok? && !CanView(db, bot, 1)
  {
    var users := map[1 := User(true, false, None, false), 2 := User(true, true, Some(1), false)];
    db := Db(users, map[1 := None], map[(1, 1) := Viewer], true);
    bot, owner := Identity(2, false), Identity(1, false);
  }
}
