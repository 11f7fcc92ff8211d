/**
  The `api_keys` table of `src/auth.rs` and the operations that change it:
  claiming a name, revoking, rotating and migrating a verifier. Each is one
  SQLite transaction, so a refused one leaves the table as it found it.
*/
module KeyTable {
  import opened Common
  import opened KeyText
  import opened Accounts

  type RowId = nat
  type KeyId = string

  /** `expires_at`, compared as a datetime; text SQLite cannot read as one is never in the future. */
  datatype Expiry = Never | At(time: int) | Malformed {
    predicate Live(now: int) { Never? || (At? && time > now) }
  }

  datatype Row = Row(name: string, keyHash: Text, keyId: Option<KeyId>, expires: Expiry,
                     owner: Option<UserId>, revoked: bool)
  {
    predicate Usable(now: int) { !revoked && expires.Live(now) }
  }

  type Rows = map<RowId, Row>

  /** `PreparedApiKey`: key material drawn before the transaction. */
  datatype Prepared = Prepared(token: Text, keyId: KeyId, verifier: Digest) {
    function AsRow(name: string, expires: Expiry, owner: Option<UserId>): Row {
      Row(name, EncodeVerifier(verifier), Some(keyId), expires, owner, false)
    }
  }

  datatype Error = ActiveNameExists | ReservedByAnotherOwner | NoSuchName | CannotRotateExpired

  // ---- What each statement does to the rows ----

  ghost predicate UniqueNames(rows: Rows) {
    forall i, j :: i in rows && j in rows && rows[i].name == rows[j].name ==> i == j
  }

  ghost predicate Named(rows: Rows, name: string) {
    exists i :: i in rows && rows[i].name == name
  }

  ghost predicate ActiveNamed(rows: Rows, name: string) {
    exists i :: i in rows && rows[i].name == name && !rows[i].revoked
  }

  ghost predicate ForeignNamed(rows: Rows, name: string, owner: Option<UserId>) {
    exists i :: i in rows && rows[i].name == name && rows[i].owner != owner
  }

  function WithoutTombstone(rows: Rows, name: string): Rows {
    map i | i in rows && !(rows[i].name == name && rows[i].revoked) :: rows[i]
  }

  function WithoutName(rows: Rows, name: string): Rows {
    map i | i in rows && rows[i].name != name :: rows[i]
  }

  function Revoked(rows: Rows, name: string): Rows {
    map i | i in rows :: if rows[i].name == name then rows[i].(revoked := true) else rows[i]
  }

  /** Why `insert` refuses, if it does. */
  ghost function InsertRefusal(rows: Rows, name: string, owner: Option<UserId>): Option<Error> {
    if ActiveNamed(rows, name) then Some(ActiveNameExists)
    else if ForeignNamed(rows, name, owner) then Some(ReservedByAnotherOwner)
    else None
  }

  /** The guard of the migrating UPDATE: same row, same text, same key id, still usable. */
  predicate Migrates(rows: Rows, id: RowId, original: Text, keyId: KeyId, now: int) {
    && id in rows && rows[id].keyHash == original && rows[id].keyId == Some(keyId)
    && rows[id].Usable(now)
  }

  function Migrated(rows: Rows, id: RowId, original: Text, keyId: KeyId, verifier: Digest, now: int): Rows {
    if Migrates(rows, id, original, keyId, now) then rows[id := rows[id].(keyHash := EncodeVerifier(verifier))]
    else rows
  }

  /** The row whose owner and expiry a rotation carries over. */
  ghost predicate Rotates(rows: Rows, name: string, now: int, id: RowId) {
    id in rows && rows[id].name == name && rows[id].expires.Live(now)
  }

  // ---- The table as an object ----

  class Table {
    var rows: Rows
    var nextId: RowId

    ghost predicate Valid()
      reads this
    {
      UniqueNames(rows) && forall i :: i in rows ==> i < nextId
    }

    constructor ()
      ensures Valid() && rows == map[]
    {
      rows, nextId := map[], 0;
    }

    /** `PreparedApiKey::insert` */
    method Insert(prepared: Prepared, name: string, expires: Expiry, owner: Option<UserId>)
      returns (r: Result<Text, Error>)
      requires Valid()
      modifies this
      ensures Valid()
      ensures r.Err? <==> InsertRefusal(old(rows), name, owner).Some?
      ensures r.Err? ==> Some(r.error) == InsertRefusal(old(rows), name, owner) && rows == old(rows)
      ensures r.Ok? ==>
                && r.value == prepared.token
                && rows == WithoutTombstone(old(rows), name)[old(nextId) := prepared.AsRow(name, expires, owner)]
      ensures Performs(old(rows), Op.Create(name, prepared, expires, owner), 0, old(nextId), rows, r.Ok?)
    {
      if i :| i in rows && rows[i].name == name {
        if !rows[i].revoked {
          assert ActiveNamed(rows, name);
          return Err(ActiveNameExists);
        }
        assert !ActiveNamed(rows, name);
        if rows[i].owner != owner {
          return Err(ReservedByAnotherOwner);
        }
        rows := WithoutTombstone(rows, name);
      } else {
        assert WithoutTombstone(rows, name) == rows;
      }
      rows := rows[nextId := prepared.AsRow(name, expires, owner)];
      nextId := nextId + 1;
      return Ok(prepared.token);
    }

    /** `revoke_api_key` */
    method Revoke(name: string) returns (r: Result<(), Error>)
      requires Valid()
      modifies `rows
      ensures Valid()
      ensures r.Ok? <==> ActiveNamed(old(rows), name)
      ensures r.Err? ==> r.error == NoSuchName && rows == old(rows)
      ensures r.Ok? ==> rows == Revoked(old(rows), name)
      ensures Performs(old(rows), Op.Revoke(name), 0, 0, rows, r.Ok?)
    {
      if i :| i in rows && rows[i].name == name && !rows[i].revoked {
        var before := rows;
        rows := rows[i := rows[i].(revoked := true)];
        assert rows == Revoked(before, name);
        return Ok(());
      }
      return Err(NoSuchName);
    }

    /** `rotate_api_key_bound`; `rotate_api_key` is the case `binding == None`. */
    method Rotate(prepared: Prepared, name: string, binding: Option<UserId>, now: int)
      returns (r: Result<Text, Error>)
      requires Valid()
      modifies this
      ensures Valid()
      ensures r.Ok? <==> exists id :: Rotates(old(rows), name, now, id)
      ensures forall id :: id in old(rows) && old(rows)[id].name == name ==>
                (r.Ok? <==> old(rows)[id].expires == Never || (old(rows)[id].expires.At? && old(rows)[id].expires.time > now))
      ensures r.Err? ==> rows == old(rows) && r.error == if Named(old(rows), name) then CannotRotateExpired else NoSuchName
      ensures forall id :: Rotates(old(rows), name, now, id) ==>
                && r == Ok(prepared.token)
                && rows == WithoutName(old(rows), name)
                     [old(nextId) := prepared.AsRow(name, old(rows)[id].expires, if binding.Some? then binding else old(rows)[id].owner)]
      ensures binding == None ==>
                Performs(old(rows), Op.Rotate(name, prepared), now, old(nextId), rows, r.Ok?)
      ensures binding.Some? && r.Ok? ==>
                Rebinds(old(rows), name, prepared, binding.value, now, old(nextId), rows)
    {
      if i :| i in rows && rows[i].name == name {
        var previous := rows[i];
        if previous.expires != Never && !previous.expires.Live(now) {
          return Err(CannotRotateExpired);
        }
        assert Rotates(rows, name, now, i);
        ghost var before := rows;
        rows := WithoutName(rows, name);
        assert InsertRefusal(rows, name, previous.owner) == None;
        r := Insert(prepared, name, previous.expires, if binding.Some? then binding else previous.owner);
        assert WithoutTombstone(WithoutName(before, name), name) == WithoutName(before, name);
      } else {
        return Err(NoSuchName);
      }
    }

    /** `migrate_api_key_verifier`, up to the number of rows its UPDATE changed. */
    method Migrate(id: RowId, original: Text, keyId: KeyId, verifier: Digest, now: int) returns (updated: bool)
      requires Valid()
      modifies `rows
      ensures Valid()
      ensures updated <==> Migrates(old(rows), id, original, keyId, now)
      ensures updated <==>
                && id in old(rows) && old(rows)[id].keyHash == original && old(rows)[id].keyId == Some(keyId)
                && !old(rows)[id].revoked && old(rows)[id].expires != Malformed
                && (old(rows)[id].expires.At? ==> old(rows)[id].expires.time > now)
      ensures rows == Migrated(old(rows), id, original, keyId, verifier, now)
    {
      updated := Migrates(rows, id, original, keyId, now);
      if updated {
        rows := rows[id := rows[id].(keyHash := EncodeVerifier(verifier))];
      }
    }
  }

  // ---- The table as a map from names ----

  /** With one row per name, the table is a map from names; ids stop mattering. */
  ghost function View(rows: Rows): map<string, Row>
    requires UniqueNames(rows)
  {
    map i | i in rows :: rows[i].name := rows[i]
  }

  datatype Op =
    | Create(name: string, prepared: Prepared, expires: Expiry, owner: Option<UserId>)
    | Revoke(name: string)
    | Rotate(name: string, prepared: Prepared)

  /** One operation on rows, at some time and with any id the table has free. */
  ghost predicate Performs(rows: Rows, op: Op, now: int, id: RowId, rows': Rows, ok: bool) {
    match op
    case Create(name, prepared, expires, owner) =>
      if InsertRefusal(rows, name, owner).Some? then !ok && rows' == rows
      else ok && id !in rows && rows' == WithoutTombstone(rows, name)[id := prepared.AsRow(name, expires, owner)]
    case Revoke(name) =>
      if ActiveNamed(rows, name) then ok && rows' == Revoked(rows, name) else !ok && rows' == rows
    case Rotate(name, prepared) =>
      if exists prev :: Rotates(rows, name, now, prev) then
        ok && id !in rows && exists prev :: (
          && Rotates(rows, name, now, prev)
          && rows' == WithoutName(rows, name)[id := prepared.AsRow(name, rows[prev].expires, rows[prev].owner)])
      else !ok && rows' == rows
  }

  /** A rotation that hands the key to a new owner. */
  ghost predicate Rebinds(
      rows: Rows, name: string, prepared: Prepared, owner: UserId, now: int, id: RowId, rows': Rows)
  {
    id !in rows && exists prev :: (
      && Rotates(rows, name, now, prev)
      && rows' == WithoutName(rows, name)[id := prepared.AsRow(name, rows[prev].expires, Some(owner))])
  }

  /** The same operation told by names alone. */
  ghost predicate PerformsOnView(view: map<string, Row>, op: Op, now: int, view': map<string, Row>, ok: bool) {
    match op
    case Create(name, prepared, expires, owner) =>
      if name in view && (!view[name].revoked || view[name].owner != owner) then !ok && view' == view
      else ok && view' == view[name := prepared.AsRow(name, expires, owner)]
    case Revoke(name) =>
      if name in view && !view[name].revoked then ok && view' == view[name := view[name].(revoked := true)]
      else !ok && view' == view
    case Rotate(name, prepared) =>
      if name in view && view[name].expires.Live(now)
      then ok && view' == view[name := prepared.AsRow(name, view[name].expires, view[name].owner)]
      else !ok && view' == view
  }

  lemma ViewHolds(rows: Rows, i: RowId)
    requires UniqueNames(rows) && i in rows
    ensures rows[i].name in View(rows) && View(rows)[rows[i].name] == rows[i]
  {
  }

  lemma ViewComesFromARow(rows: Rows, name: string) returns (i: RowId)
    requires UniqueNames(rows) && name in View(rows)
    ensures i in rows && rows[i].name == name && View(rows)[name] == rows[i]
  {
    i :| i in rows && rows[i].name == name;
  }

  /** Rows that agree on every name but one have views that do. */
  lemma ViewsAgreeElsewhere(rows: Rows, rows': Rows, name: string)
    requires UniqueNames(rows) && UniqueNames(rows')
    requires forall i :: i in rows && rows[i].name != name ==> i in rows' && rows'[i] == rows[i]
    requires forall i :: i in rows' && rows'[i].name != name ==> i in rows && rows'[i] == rows[i]
    ensures forall n :: n != name && n in View(rows) ==> n in View(rows') && View(rows')[n] == View(rows)[n]
    ensures forall n :: n != name && n in View(rows') ==> n in View(rows)
  {
  }

  /** Rows that agree on every other name, one of which now has `row`, are the updated map. */
  lemma ViewIsUpdated(rows: Rows, rows': Rows, id: RowId)
    requires UniqueNames(rows) && UniqueNames(rows') && id in rows'
    requires forall i :: i in rows && rows[i].name != rows'[id].name ==> i in rows' && rows'[i] == rows[i]
    requires forall i :: i in rows' && rows'[i].name != rows'[id].name ==> i in rows && rows'[i] == rows[i]
    ensures View(rows') == View(rows)[rows'[id].name := rows'[id]]
  {
    hide View, UniqueNames;
    ViewsAgreeElsewhere(rows, rows', rows'[id].name);
    ViewHolds(rows', id);
  }

  lemma RefusalOfTakenName(rows: Rows, i: RowId, owner: Option<UserId>)
    requires UniqueNames(rows) && i in rows
    ensures InsertRefusal(rows, rows[i].name, owner) ==
            if !rows[i].revoked then Some(ActiveNameExists)
            else if rows[i].owner != owner then Some(ReservedByAnotherOwner)
            else None
  {
  }

  lemma InsertedRows(rows: Rows, id: RowId, row: Row)
    requires UniqueNames(rows) && InsertRefusal(rows, row.name, row.owner) == None && id !in rows
    ensures var rows' := WithoutTombstone(rows, row.name)[id := row];
            && UniqueNames(rows')
            && (forall i :: i in rows && rows[i].name != row.name ==> i in rows' && rows'[i] == rows[i])
            && (forall i :: i in rows' && rows'[i].name != row.name ==> i in rows && rows'[i] == rows[i])
  {
  }

  lemma CreateRefines(rows: Rows, op: Op, now: int, id: RowId, rows': Rows, ok: bool)
    requires UniqueNames(rows) && op.Create? && Performs(rows, op, now, id, rows', ok)
    ensures UniqueNames(rows') && PerformsOnView(View(rows), op, now, View(rows'), ok)
  {
    hide InsertRefusal, View, UniqueNames, WithoutTombstone;
    if op.name in View(rows) {
      var i := ViewComesFromARow(rows, op.name);
      RefusalOfTakenName(rows, i, op.owner);
    } else {
      RefusalOfFreeName(rows, op.name, op.owner);
    }
    if ok {
      InsertedRows(rows, id, op.prepared.AsRow(op.name, op.expires, op.owner));
      ViewIsUpdated(rows, rows', id);
    }
  }

  lemma RefusalOfFreeName(rows: Rows, name: string, owner: Option<UserId>)
    requires UniqueNames(rows) && name !in View(rows)
    ensures InsertRefusal(rows, name, owner) == None
  {
  }

  lemma RevokeRefines(rows: Rows, op: Op, now: int, id: RowId, rows': Rows, ok: bool)
    requires UniqueNames(rows) && op.Revoke? && Performs(rows, op, now, id, rows', ok)
    ensures UniqueNames(rows') && PerformsOnView(View(rows), op, now, View(rows'), ok)
  {
    if i :| i in rows && rows[i].name == op.name {
      ViewHolds(rows, i);
      hide View;
      if ok { ViewIsUpdated(rows, rows', i); }
    } else {
      assert op.name !in View(rows);
    }
  }

  lemma RotateRefines(rows: Rows, op: Op, now: int, id: RowId, rows': Rows, ok: bool)
    requires UniqueNames(rows) && op.Rotate? && Performs(rows, op, now, id, rows', ok)
    ensures UniqueNames(rows') && PerformsOnView(View(rows), op, now, View(rows'), ok)
  {
    if i :| i in rows && rows[i].name == op.name {
      ViewHolds(rows, i);
      hide View;
      if ok {
        assert rows'[id] == op.prepared.AsRow(op.name, rows[i].expires, rows[i].owner);
        ViewIsUpdated(rows, rows', id);
      } else {
        assert !Rotates(rows, op.name, now, i);
      }
    } else {
      assert op.name !in View(rows);
    }
  }

  /** The table of rows refines the map from names, and keeps names unique. */
  lemma RowsRefineNames(rows: Rows, op: Op, now: int, id: RowId, rows': Rows, ok: bool)
    requires UniqueNames(rows) && Performs(rows, op, now, id, rows', ok)
    ensures UniqueNames(rows')
    ensures PerformsOnView(View(rows), op, now, View(rows'), ok)
  {
    hide View, UniqueNames, Performs, PerformsOnView;
    match op
    case Create(_, _, _, _) => CreateRefines(rows, op, now, id, rows', ok);
    case Revoke(_) => RevokeRefines(rows, op, now, id, rows', ok);
    case Rotate(_, _) => RotateRefines(rows, op, now, id, rows', ok);
  }

  // ---- Whole histories ----

  datatype Event = Event(op: Op, now: int, id: RowId, ok: bool)

  ghost predicate IsHistory(states: seq<Rows>, events: seq<Event>) {
    && |states| == |events| + 1 && UniqueNames(states[0])
    && forall k :: 0 <= k < |events| ==>
         Performs(states[k], events[k].op, events[k].now, events[k].id, states[k + 1], events[k].ok)
  }

  lemma {:induction false} NamesStayUnique(states: seq<Rows>, events: seq<Event>, k: nat)
    requires IsHistory(states, events) && k < |states|
    ensures UniqueNames(states[k])
  {
    if k > 0 {
      NamesStayUnique(states, events, k - 1);
      var e := events[k - 1];
      RowsRefineNames(states[k - 1], e.op, e.now, e.id, states[k], e.ok);
    }
  }

  ghost predicate SameNameAndOwner(a: Row, b: Row) { a.name == b.name && a.owner == b.owner }

  /** Once a name is taken it stays taken, and by the same owner, whatever is created, revoked or rotated. */
  lemma {:induction false} OwnerOfANameNeverChanges(states: seq<Rows>, events: seq<Event>, first: nat, last: nat, i: RowId)
    requires IsHistory(states, events) && first <= last < |states| && i in states[first]
    ensures exists j :: j in states[last] && SameNameAndOwner(states[last][j], states[first][i])
    decreases last
  {
    hide Performs, View, UniqueNames;
    if first < last {
      OwnerOfANameNeverChanges(states, events, first, last - 1, i);
      var rows, e := states[last - 1], events[last - 1];
      var name := states[first][i].name;
      var j :| j in rows && SameNameAndOwner(rows[j], states[first][i]);
      NamesStayUnique(states, events, last - 1);
      RowsRefineNames(rows, e.op, e.now, e.id, states[last], e.ok);
      ViewHolds(rows, j);
      var k := ViewComesFromARow(states[last], name);
    }
  }

  /** A rotation that succeeds leaves one row of the name: active, with the old owner and expiry and the new key. */
  lemma RotationReplacesTheKey(rows: Rows, name: string, prepared: Prepared, now: int, id: RowId, rows': Rows, prev: RowId)
    requires UniqueNames(rows) && prev in rows && rows[prev].name == name
    requires Performs(rows, Rotate(name, prepared), now, id, rows', true)
    ensures id in rows' && rows'[id].name == name && !rows'[id].revoked
    ensures rows[prev].expires == Never || (rows[prev].expires.At? && rows[prev].expires.time > now)
    ensures rows'[id].owner == rows[prev].owner && rows'[id].expires == rows[prev].expires
    ensures rows'[id].keyId == Some(prepared.keyId) && ParseStored(rows'[id].keyHash) == Sha256(prepared.verifier)
    ensures forall j :: j in rows' && rows'[j].name == name ==> j == id
    ensures forall j :: j in rows && rows[j].name != name ==> j in rows' && rows'[j] == rows[j]
  {
    StoredVerifierIsSha256(prepared.verifier);
  }

  /** The operations that succeeded among the first `k`, and the tables before, between and after them. */
  ghost function Successes(states: seq<Rows>, events: seq<Event>, k: nat): (r: (seq<Rows>, seq<Event>))
    requires |states| == |events| + 1 && k <= |events|
    ensures |r.0| == |r.1| + 1
  {
    if k == 0 then ([states[0]], [])
    else
      var (before, done) := Successes(states, events, k - 1);
      if events[k - 1].ok then (before + [states[k]], done + [events[k - 1]]) else (before, done)
  }

  /**
    Refusals leave no trace: striking every refused operation from a history
    leaves a history, of successes alone, that ends in the same table.
  */
  lemma {:induction false} RefusalsLeaveNoTrace(states: seq<Rows>, events: seq<Event>, k: nat)
    requires IsHistory(states, events) && k <= |events|
    ensures var (tables, done) := Successes(states, events, k);
            && IsHistory(tables, done) && tables[0] == states[0] && tables[|done|] == states[k]
            && forall e :: e in done ==> e.ok
  {
    hide UniqueNames;
    if k > 0 {
      RefusalsLeaveNoTrace(states, events, k - 1);
      var e := events[k - 1];
      assert Performs(states[k - 1], e.op, e.now, e.id, states[k], e.ok);
      if !e.ok { RefusalChangesNothing(states[k - 1], e.op, e.now, e.id, states[k]); }
      hide Performs;
    }
  }

  /** A refused operation leaves every row alone. */
  lemma RefusalChangesNothing(rows: Rows, op: Op, now: int, id: RowId, rows': Rows)
    requires Performs(rows, op, now, id, rows', false)
    ensures rows' == rows
  {
  }

  /** A rotation revives a revoked name: it asks about the expiry, not about the revocation. */
  lemma RotationRevivesARevokedName(prepared: Prepared, token: Prepared) returns (rows: Rows, rows': Rows)
    ensures UniqueNames(rows) && !ActiveNamed(rows, "k") && ActiveNamed(rows', "k")
    ensures Performs(rows, Rotate("k", prepared), 0, 1, rows', true)
  {
    rows := map[0 := token.AsRow("k", Never, None).(revoked := true)];
    rows' := map[1 := prepared.AsRow("k", Never, None)];
    assert Rotates(rows, "k", 0, 0);
    assert WithoutName(rows, "k")[1 := prepared.AsRow("k", Never, None)] == rows';
    assert 1 in rows';
  }
}
