/**
  Minting a key from a browser session against account lockdown. Both run as
  one immediate transaction, so a history is a sequence of whole transactions;
  each has a number, and a session or key remembers the one that made it.
*/
module KeyMinting {
  import opened Common
  import opened KeyTable
  import opened Accounts

  datatype Session = Session(user: UserId, createdAt: int, expiresAt: int, born: nat)

  /** A key minted from a session: whose, created when, and by which transaction. */
  datatype Mint = Mint(user: UserId, born: nat, at: nat)

  const RECENT_SECONDS := 15 * 60

  /** `mints` and `used` are bookkeeping: where a key came from, and the session tokens drawn so far. */
  datatype State = State(
    users: Users,
    sessions: map<string, Session>,
    rows: Rows,
    mints: map<RowId, Mint>,
    used: set<string>)

  /** `LOCKDOWN_SCOPE_SQL`: the account and the bots it owns, never the unbound operator key. */
  predicate InScope(users: Users, u: UserId, account: UserId) {
    account == u || OwnsBot(users, u, account)
  }

  predicate RowInScope(users: Users, u: UserId, row: Row) {
    row.owner.Some? && InScope(users, u, row.owner.value)
  }

  /** `revalidate_recent_session`: live, the expected user's, created in the last fifteen minutes. */
  predicate Revalidates(s: State, token: string, expected: UserId, now: int) {
    && token in s.sessions
    && s.sessions[token].expiresAt > now
    && CredentialLive(s.users, s.sessions[token].user)
    && s.sessions[token].user == expected
    && s.sessions[token].createdAt >= now - RECENT_SECONDS
  }

  datatype Txn =
    | Login(token: string, user: UserId, expiresAt: int)
    | DropSessions(tokens: set<string>)
    | MintKey(token: string, expected: UserId, name: string, prepared: Prepared, expires: Expiry, account: UserId, id: RowId)
    | LockDown(user: UserId)
    | Operate(op: Op, id: RowId, ok: bool)       // the command line: create, revoke and rotate by name
    | Assign(name: string, user: UserId)         // and giving an active key to a user
    | RevokeRow(id: RowId)
    | AddUser(user: UserId, record: User)
    | SetActive(user: UserId, active: bool)
    | DeleteBot(bot: UserId)

  /** The sessions and rows `lock_down_account` leaves. */
  function LockedDown(s: State, u: UserId): State {
    s.(sessions := map t | t in s.sessions && !InScope(s.users, u, s.sessions[t].user) :: s.sessions[t],
       rows := map i | i in s.rows :: if RowInScope(s.users, u, s.rows[i]) then s.rows[i].(revoked := true) else s.rows[i])
  }

  /** Transaction number `n`, run at time `now`; a refused one changes nothing. */
  ghost predicate Runs(s: State, n: nat, now: int, txn: Txn, s': State) {
    match txn
    case Login(token, user, expiresAt) =>
      && token !in s.used && user in s.users
      && s' == s.(sessions := s.sessions[token := Session(user, now, expiresAt, n)], used := s.used + {token})
    case DropSessions(tokens) =>
      s' == s.(sessions := map t | t in s.sessions && t !in tokens :: s.sessions[t])
    case MintKey(token, expected, name, prepared, expires, account, id) =>
      if Revalidates(s, token, expected, now) && InScope(s.users, expected, account)
         && InsertRefusal(s.rows, name, Some(account)) == None
      then
        && id !in s.rows
        && s' == s.(rows := WithoutTombstone(s.rows, name)[id := prepared.AsRow(name, expires, Some(account))],
                    mints := s.mints[id := Mint(expected, s.sessions[token].born, n)])
      else s' == s
    case LockDown(user) => s' == LockedDown(s, user)
    case Operate(op, id, ok) =>
      Performs(s.rows, op, now, id, s'.rows, ok) && s' == s.(rows := s'.rows, mints := if ok && !op.Revoke? then s.mints - {id} else s.mints)
    case Assign(name, user) => // the key is the operator's from then on
      s' == s.(rows := map i | i in s.rows :: if s.rows[i].name == name && !s.rows[i].revoked
                                              then s.rows[i].(owner := Some(user)) else s.rows[i],
               mints := s.mints - set i | i in s.rows && s.rows[i].name == name && !s.rows[i].revoked)
    case RevokeRow(id) =>
      s' == if id in s.rows then s.(rows := s.rows[id := s.rows[id].(revoked := true)]) else s
    case AddUser(user, record) =>
      user !in s.users && s' == s.(users := s.users[user := record])
    case SetActive(user, active) =>
      s' == if user in s.users then s.(users := s.users[user := s.users[user].(active := active)]) else s
    case DeleteBot(bot) => // its keys go first
      s' == if bot in s.users && s.users[bot].isBot
            then s.(users := s.users - {bot},
                    rows := map i | i in s.rows && s.rows[i].owner != Some(bot) :: s.rows[i],
                    sessions := map t | t in s.sessions && s.sessions[t].user != bot :: s.sessions[t])
            else s
  }

  datatype Entry = Entry(now: int, txn: Txn)

  /** Numbers start where the log does; what is there at first was made before transaction 0. */
  ghost predicate IsHistory(states: seq<State>, log: seq<Entry>) {
    && |states| == |log| + 1
    && states[0].sessions == map[] && states[0].mints == map[]
    && forall n :: 0 <= n < |log| ==> Runs(states[n], n, log[n].now, log[n].txn, states[n + 1])
  }

  // ---- Before any lockdown ----

  /** Every live session's token was drawn, and minted keys belong to the session's account or one of its bots. */
  ghost predicate Sane(s: State, n: nat) {
    && (forall t :: t in s.sessions ==> t in s.used && s.sessions[t].born < n)
    && (forall i :: i in s.mints ==> s.mints[i].born < s.mints[i].at < n)
    && (forall i :: i in s.mints && i in s.rows ==>
          s.rows[i].owner.Some? && InScope(s.users, s.mints[i].user, s.rows[i].owner.value))
  }

  lemma OperateKeepsSane(s: State, n: nat, now: int, txn: Txn, s': State)
    requires Sane(s, n) && txn.Operate? && Runs(s, n, now, txn, s')
    ensures Sane(s', n + 1)
  {
  }

  lemma RunsKeepSane(s: State, n: nat, now: int, txn: Txn, s': State)
    requires Sane(s, n) && Runs(s, n, now, txn, s')
    ensures Sane(s', n + 1)
  {
    if txn.Operate? {
      hide Sane, Runs;
      OperateKeepsSane(s, n, now, txn, s');
    }
  }

  lemma {:induction false} HistoryIsSane(states: seq<State>, log: seq<Entry>, n: nat)
    requires IsHistory(states, log) && n < |states|
    ensures Sane(states[n], n)
  {
    hide Runs;
    if n > 0 {
      HistoryIsSane(states, log, n - 1);
      RunsKeepSane(states[n - 1], n - 1, log[n - 1].now, log[n - 1].txn, states[n]);
    }
  }

  // ---- After transaction `lock` locked `u` down ----

  /** Every session of the account is newer than the lockdown, and so is what its keys were minted from. */
  ghost predicate Contained(s: State, u: UserId, lock: nat) {
    && (forall t :: t in s.sessions && s.sessions[t].user == u ==> s.sessions[t].born > lock)
    && (forall i :: i in s.mints && i in s.rows && s.mints[i].user == u && !s.rows[i].revoked ==> s.mints[i].born > lock)
  }

  lemma LockdownContains(s: State, u: UserId, lock: nat, now: int, s': State)
    requires Sane(s, lock) && Runs(s, lock, now, LockDown(u), s')
    ensures Contained(s', u, lock)
  {
  }

  lemma RunsKeepContained(s: State, n: nat, now: int, txn: Txn, s': State, u: UserId, lock: nat)
    requires Sane(s, n) && Contained(s, u, lock) && lock < n && Runs(s, n, now, txn, s')
    ensures Contained(s', u, lock)
  {
  }

  lemma {:induction false} StaysContained(states: seq<State>, log: seq<Entry>, u: UserId, lock: nat, n: nat)
    requires IsHistory(states, log) && lock < n < |states| && log[lock].txn == LockDown(u)
    ensures Contained(states[n], u, lock)
  {
    hide Runs, Contained, Sane;
    HistoryIsSane(states, log, n - 1);
    if n == lock + 1 {
      LockdownContains(states[lock], u, lock, log[lock].now, states[n]);
    } else {
      StaysContained(states, log, u, lock, n - 1);
      RunsKeepContained(states[n - 1], n - 1, log[n - 1].now, log[n - 1].txn, states[n], u, lock);
    }
  }

  /**
    No lockdown leaves a live key behind: over every sequence of transactions, a
    key minted from one of the account's sessions, for the account or one of its
    bots, is active after a lockdown of that account only if the session it was
    minted from began after that lockdown.
  */
  lemma NoKeyOutlivesALockdown(states: seq<State>, log: seq<Entry>, u: UserId, lock: nat, n: nat, id: RowId)
    requires IsHistory(states, log) && lock < n < |states| && log[lock].txn == LockDown(u)
    requires id in states[n].rows && id in states[n].mints && states[n].mints[id].user == u
    requires !states[n].rows[id].revoked
    ensures lock < states[n].mints[id].born < states[n].mints[id].at
    ensures RowInScope(states[n].users, u, states[n].rows[id])
  {
    StaysContained(states, log, u, lock, n);
    HistoryIsSane(states, log, n);
  }

  // ---- The keys bound to the locked account ----

  /** A session of the human who owns the bot, out of reach of the bot's own lockdown, that can mint at `now`. */
  ghost predicate HumanSession(s: State, bot: UserId, token: string, human: UserId, now: int) {
    OwnsBot(s.users, human, bot) && !InScope(s.users, bot, human) && Revalidates(s, token, human, now)
  }

  /** Right after the lockdown of `u` as number `lock`, one mint at `now` binds `u` a live key from an older session. */
  ghost predicate Escapes(s: State, u: UserId, lock: nat, now: int) {
    exists txn: Txn, s' :: txn.MintKey? && Runs(LockedDown(s, u), lock + 1, now, txn, s') && EscapedKey(s', u, lock, txn.id)
  }

  ghost predicate EscapedKey(s: State, u: UserId, lock: nat, id: RowId) {
    BoundAndLive(s, u, id) && s.mints[id].born <= lock
  }

  lemma HumanSessionMints(s: State, u: UserId, lock: nat, now: int, token: string, human: UserId, prepared: Prepared)
    requires Sane(s, lock) && HumanSession(s, u, token, human, now)
    ensures Escapes(s, u, lock, now)
  {
    var after := LockedDown(s, u);
    var id := FreshNat(after.rows.Keys);
    var name := FreshString(set i | i in after.rows :: after.rows[i].name);
    forall i | i in after.rows ensures after.rows[i].name != name {
      assert after.rows[i].name in set j | j in after.rows :: after.rows[j].name;
    }
    var txn := MintKey(token, human, name, prepared, Never, u, id);
    assert Revalidates(after, token, human, now) && id !in after.rows;
    assert InsertRefusal(after.rows, name, Some(u)) == None;
    var s' := after.(rows := WithoutTombstone(after.rows, name)[id := prepared.AsRow(name, Never, Some(u))],
                     mints := after.mints[id := Mint(human, after.sessions[token].born, lock + 1)]);
    assert Runs(after, lock + 1, now, txn, s') && EscapedKey(s', u, lock, id);
  }

  lemma EscapeNeedsAHumanSession(s: State, u: UserId, lock: nat, now: int)
    requires Escapes(s, u, lock, now)
    ensures exists token, human :: HumanSession(s, u, token, human, now)
  {
    var txn: Txn, s' :| txn.MintKey? && Runs(LockedDown(s, u), lock + 1, now, txn, s') && EscapedKey(s', u, lock, txn.id);
    assert s' != LockedDown(s, u);
    assert HumanSession(s, u, txn.token, txn.expected, now);
  }

  ghost predicate BoundAndLive(s: State, u: UserId, id: RowId) {
    id in s.rows && id in s.mints && s.rows[id].owner == Some(u) && !s.rows[id].revoked
  }

  /** The session behind the key is newer than the lockdown, or is that of the human who owns the account as a bot. */
  ghost predicate NewOrHumans(s: State, u: UserId, lock: nat, id: RowId)
    requires id in s.mints
  {
    s.mints[id].born > lock || (s.mints[id].user != u && OwnsBot(s.users, s.mints[id].user, u))
  }

  /**
    What a lockdown promises of the keys bound to the locked account. At every
    later point of every history, such a key is live only if the session it was
    minted from is newer than the lockdown, or the account is a bot and that
    session its human's. The exception is real exactly when, as the lockdown
    runs, some session of the bot's human is recent enough to mint; for an
    account that is no bot it never is.
  */
  lemma LockdownByOwnerOfTheKey(states: seq<State>, log: seq<Entry>, u: UserId, lock: nat, now: int, prepared: Prepared)
    requires IsHistory(states, log) && lock < |log| && log[lock].txn == LockDown(u)
    ensures forall n, id :: lock < n < |states| && BoundAndLive(states[n], u, id) ==>
              NewOrHumans(states[n], u, lock, id)
    ensures Escapes(states[lock], u, lock, now) <==>
              exists token, human :: HumanSession(states[lock], u, token, human, now)
  {
    forall n, id | lock < n < |states| && BoundAndLive(states[n], u, id) ensures NewOrHumans(states[n], u, lock, id) {
      hide IsHistory;
      StaysContained(states, log, u, lock, n);
      HistoryIsSane(states, log, n);
    }
    HistoryIsSane(states, log, lock);
    hide IsHistory, Sane, Runs, HumanSession;
    if token, human :| HumanSession(states[lock], u, token, human, now) {
      HumanSessionMints(states[lock], u, lock, now, token, human, prepared);
    }
    if Escapes(states[lock], u, lock, now) { EscapeNeedsAHumanSession(states[lock], u, lock, now); }
  }

  // ---- Where a minted key comes from ----

  /** The session was opened by that login. */
  ghost predicate OpenedBy(session: Session, token: string, log: seq<Entry>) {
    && session.born < |log| && log[session.born].txn == Login(token, session.user, session.expiresAt)
    && log[session.born].now == session.createdAt
  }

  /** A login opened a session from which, within fifteen minutes and before it expired, a later transaction minted the key. */
  ghost predicate ComesFrom(id: RowId, mint: Mint, log: seq<Entry>) {
    && mint.born < mint.at < |log|
    && var login, made := log[mint.born], log[mint.at];
       && made.txn.MintKey? && made.txn.id == id && made.txn.expected == mint.user
       && login.txn.Login? && login.txn.token == made.txn.token && login.txn.user == mint.user
       && made.now < login.txn.expiresAt && made.now <= login.now + RECENT_SECONDS
  }

  /** Revocation aside, the row is the one that transaction wrote. */
  ghost predicate AsMinted(row: Row, mint: Mint, log: seq<Entry>) {
    && mint.at < |log| && log[mint.at].txn.MintKey?
    && var made := log[mint.at].txn;
       row.(revoked := false) == made.prepared.AsRow(made.name, made.expires, Some(made.account))
  }

  ghost predicate SessionsTraced(s: State, log: seq<Entry>) {
    forall t :: t in s.sessions ==> OpenedBy(s.sessions[t], t, log)
  }

  ghost predicate MintsTraced(s: State, log: seq<Entry>) {
    forall i :: i in s.mints ==> ComesFrom(i, s.mints[i], log)
  }

  ghost predicate RowsTraced(s: State, log: seq<Entry>) {
    forall i :: i in s.mints && i in s.rows ==> AsMinted(s.rows[i], s.mints[i], log)
  }

  ghost predicate Traced(s: State, log: seq<Entry>) {
    SessionsTraced(s, log) && MintsTraced(s, log) && RowsTraced(s, log)
  }

  lemma SessionsStayTraced(s: State, log: seq<Entry>, e: Entry, s': State)
    requires SessionsTraced(s, log) && Runs(s, |log|, e.now, e.txn, s')
    ensures SessionsTraced(s', log + [e])
  {
    forall t | t in s'.sessions ensures OpenedBy(s'.sessions[t], t, log + [e]) {
      if t in s.sessions && s'.sessions[t] == s.sessions[t] {
        assert OpenedBy(s.sessions[t], t, log) && (log + [e])[s.sessions[t].born] == log[s.sessions[t].born];
      } else {
        assert (log + [e])[|log|] == e;
      }
    }
  }

  lemma MintsStayTraced(s: State, log: seq<Entry>, e: Entry, s': State)
    requires SessionsTraced(s, log) && MintsTraced(s, log) && Runs(s, |log|, e.now, e.txn, s')
    ensures MintsTraced(s', log + [e])
  {
    forall i | i in s'.mints ensures ComesFrom(i, s'.mints[i], log + [e]) {
      if i in s.mints && s'.mints[i] == s.mints[i] {
        ComesFromEarlier(i, s.mints[i], log, e);
      } else {
        assert OpenedBy(s.sessions[e.txn.token], e.txn.token, log);
        hide SessionsTraced, MintsTraced, InsertRefusal;
        assert (log + [e])[|log|] == e && (log + [e])[s'.mints[i].born] == log[s'.mints[i].born];
      }
    }
  }

  lemma ComesFromEarlier(id: RowId, mint: Mint, log: seq<Entry>, e: Entry)
    requires ComesFrom(id, mint, log)
    ensures ComesFrom(id, mint, log + [e])
  {
    assert (log + [e])[mint.at] == log[mint.at] && (log + [e])[mint.born] == log[mint.born];
  }

  /** What becomes of the row of a key minted earlier: at most its revocation changes. */
  lemma MintedRowStays(s: State, n: nat, now: int, txn: Txn, s': State, i: RowId)
    requires Runs(s, n, now, txn, s') && i in s'.rows && i in s'.mints
    requires !(txn.MintKey? && txn.id == i && s'.mints[i].at == n)
    requires i in s.mints ==> s.mints[i].at < n
    ensures i in s.rows && i in s.mints && s'.mints[i] == s.mints[i]
    ensures s'.rows[i].(revoked := false) == s.rows[i].(revoked := false)
  {
  }

  lemma RowsStayTraced(s: State, log: seq<Entry>, e: Entry, s': State)
    requires MintsTraced(s, log) && RowsTraced(s, log) && Runs(s, |log|, e.now, e.txn, s')
    ensures RowsTraced(s', log + [e])
  {
    forall i | i in s'.mints && i in s'.rows ensures AsMinted(s'.rows[i], s'.mints[i], log + [e]) {
      assert i in s.mints ==> ComesFrom(i, s.mints[i], log);
      if e.txn.MintKey? && e.txn.id == i && s'.mints[i].at == |log| {
        hide MintsTraced, RowsTraced, InsertRefusal;
        assert (log + [e])[|log|] == e;
      } else {
        MintedRowStays(s, |log|, e.now, e.txn, s', i);
        assert AsMinted(s.rows[i], s.mints[i], log) && (log + [e])[s.mints[i].at] == log[s.mints[i].at];
      }
    }
  }

  lemma {:induction false} HistoryIsTraced(states: seq<State>, log: seq<Entry>, n: nat)
    requires IsHistory(states, log) && n <= |log|
    ensures Traced(states[n], log[..n])
  {
    if n > 0 {
      HistoryIsTraced(states, log, n - 1);
      var front, e := log[..n - 1], log[n - 1];
      assert log[..n] == front + [e] && Runs(states[n - 1], |front|, e.now, e.txn, states[n]);
      hide Runs, SessionsTraced, MintsTraced, RowsTraced;
      SessionsStayTraced(states[n - 1], front, e, states[n]);
      MintsStayTraced(states[n - 1], front, e, states[n]);
      RowsStayTraced(states[n - 1], front, e, states[n]);
    }
  }

  /** The transaction that minted the key met every condition of a mint, on the session the key remembers. */
  ghost predicate WasAllowed(s: State, e: Entry, mint: Mint) {
    && e.txn.MintKey? && Revalidates(s, e.txn.token, mint.user, e.now) && s.sessions[e.txn.token].born == mint.born
    && InScope(s.users, mint.user, e.txn.account) && InsertRefusal(s.rows, e.txn.name, Some(e.txn.account)) == None
  }

  lemma MintsOneOrNone(s: State, n: nat, now: int, txn: Txn, s': State, id: RowId)
    requires Runs(s, n, now, txn, s') && id in s'.mints && !(id in s.mints && s'.mints[id] == s.mints[id])
    ensures s'.mints[id].at == n && WasAllowed(s, Entry(now, txn), s'.mints[id])
  {
  }

  lemma {:induction false} MintWasAllowed(states: seq<State>, log: seq<Entry>, n: nat, id: RowId)
    requires IsHistory(states, log) && n <= |log| && id in states[n].mints
    ensures var mint := states[n].mints[id];
            mint.at < n && WasAllowed(states[mint.at], log[mint.at], mint)
  {
    hide Runs, WasAllowed;
    if n > 0 {
      if id in states[n - 1].mints && states[n].mints[id] == states[n - 1].mints[id] {
        MintWasAllowed(states, log, n - 1, id);
      } else {
        MintsOneOrNone(states[n - 1], n - 1, log[n - 1].now, log[n - 1].txn, states[n], id);
      }
    }
  }

  lemma SessionFromBefore(s: State, n: nat, now: int, txn: Txn, s': State, token: string)
    requires Runs(s, n, now, txn, s') && token in s'.sessions && s'.sessions[token].born < n
    ensures token in s.sessions && s.sessions[token] == s'.sessions[token]
  {
  }

  /** A session that is there has been there, unchanged, ever since its login. */
  lemma {:induction false} SessionAllAlong(states: seq<State>, log: seq<Entry>, at: nat, token: string, k: nat)
    requires IsHistory(states, log) && at <= |log| && token in states[at].sessions
    requires states[at].sessions[token].born < k <= at
    ensures token in states[k].sessions && states[k].sessions[token] == states[at].sessions[token]
    decreases at - k
  {
    hide Runs;
    if k < at {
      SessionAllAlong(states, log, at, token, k + 1);
      SessionFromBefore(states[k], k, log[k].now, log[k].txn, states[k + 1], token);
    }
  }

  /**
    Over every history each key minted from a session traces back to a login: the
    same token, the same account, at most fifteen minutes before the mint and not
    yet expired then, with no end of that session in between; the mint met every
    condition; and the row is still the one that was minted, revoked or not.
  */
  lemma MintedKeysTraceToALogin(states: seq<State>, log: seq<Entry>, n: nat, id: RowId)
    requires IsHistory(states, log) && n <= |log| && id in states[n].mints
    ensures ComesFrom(id, states[n].mints[id], log[..n])
    ensures id in states[n].rows ==> AsMinted(states[n].rows[id], states[n].mints[id], log[..n])
    ensures var mint := states[n].mints[id];
            && mint.at < n && WasAllowed(states[mint.at], log[mint.at], mint)
            && forall k :: mint.born < k <= mint.at ==> log[mint.at].txn.token in states[k].sessions
  {
    assert |states| == |log| + 1;
    hide IsHistory, ComesFrom, AsMinted;
    HistoryIsTraced(states, log, n);
    MintWasAllowed(states, log, n, id);
    var mint := states[n].mints[id];
    var token := log[mint.at].txn.token;
    forall k | mint.born < k <= mint.at ensures token in states[k].sessions {
      SessionAllAlong(states, log, mint.at, token, k);
    }
  }

  /**
    A mint succeeds exactly when the session is there, belongs to the account
    expected, has not expired and is at most fifteen minutes old, that account is
    active (and, for a bot, so is its owner if there is one), the key is for it or
    for a bot of its own, and no key of that name is active or another owner's.
  */
  lemma MintsExactly(states: seq<State>, log: seq<Entry>, n: nat)
    requires IsHistory(states, log) && n < |log| && log[n].txn.MintKey?
    ensures var s, now, txn := states[n], log[n].now, log[n].txn;
            (txn.id in states[n + 1].mints && states[n + 1].mints[txn.id].at == n) <==>
            && txn.token in s.sessions && s.sessions[txn.token].user == txn.expected
            && s.sessions[txn.token].expiresAt > now && now <= s.sessions[txn.token].createdAt + 900
            && txn.expected in s.users && s.users[txn.expected].active
            && (forall o :: s.users[txn.expected].isBot && s.users[txn.expected].owner == Some(o) && o in s.users ==> s.users[o].active)
            && (txn.account == txn.expected || IsBotOf(s.users, txn.account, txn.expected))
            && forall i :: i in s.rows && s.rows[i].name == txn.name ==> s.rows[i].revoked && s.rows[i].owner == Some(txn.account)
  {
    HistoryIsSane(states, log, n);
    var s, now, txn := states[n], log[n].now, log[n].txn;
    MintDecides(s, n, now, txn, states[n + 1]);
    NameIsFree(s.rows, txn.name, txn.account);
    LiveIsActive(s.users, txn.expected);
    hide IsHistory, Runs, InsertRefusal, Sane, CredentialLive;
  }

  lemma MintDecides(s: State, n: nat, now: int, txn: Txn, s': State)
    requires Sane(s, n) && txn.MintKey? && Runs(s, n, now, txn, s')
    ensures (txn.id in s'.mints && s'.mints[txn.id].at == n) <==>
            && Revalidates(s, txn.token, txn.expected, now) && InScope(s.users, txn.expected, txn.account)
            && InsertRefusal(s.rows, txn.name, Some(txn.account)) == None
  {
    hide InsertRefusal;
  }

  lemma NameIsFree(rows: Rows, name: string, account: UserId)
    ensures InsertRefusal(rows, name, Some(account)) == None <==>
            forall i :: i in rows && rows[i].name == name ==> rows[i].revoked && rows[i].owner == Some(account)
  {
  }

  // ---- What ends a key ----

  /** An account of its own, marked a bot, that names its human. */
  ghost predicate IsBotOf(users: Users, bot: UserId, human: UserId) {
    bot in users && users[bot].isBot && users[bot].owner.Some? && users[bot].owner.value == human
  }

  /** The transaction is aimed at this live key: by its owner, its id, or its name. */
  ghost predicate Reaches(s: State, txn: Txn, id: RowId)
    requires id in s.rows
  {
    var row := s.rows[id];
    match txn
    case LockDown(u) => row.owner == Some(u) || (row.owner.Some? && IsBotOf(s.users, row.owner.value, u))
    case RevokeRow(i) => i == id
    case DeleteBot(bot) => bot in s.users && s.users[bot].isBot && row.owner == Some(bot)
    case Operate(op, _, ok) => ok && !op.Create? && op.name == row.name
    case Assign(name, _) => name == row.name
    case _ => false
  }

  ghost predicate Lives(s: State, id: RowId) { id in s.rows && !s.rows[id].revoked }

  lemma ReachedOrUnchanged(s: State, n: nat, now: int, txn: Txn, s': State, id: RowId)
    requires Runs(s, n, now, txn, s') && Lives(s, id)
    ensures !Reaches(s, txn, id) ==>
              && id in s'.rows && s'.rows[id] == s.rows[id] && (id in s'.mints <==> id in s.mints)
              && (id in s.mints ==> s'.mints[id] == s.mints[id])
    ensures Reaches(s, txn, id) && !txn.Assign? ==> !Lives(s', id)
    ensures Reaches(s, txn, id) && txn.Assign? ==> Lives(s', id) && s'.rows[id] == s.rows[id].(owner := Some(txn.user))
  {
  }

  /**
    A live key stays exactly as it is through every history until a transaction is
    aimed at it, and that one ends it, or is an assignment and changes its owner only. Lockdowns of
    others, logins, mints and other keys' rotations never touch it; the operator's
    unbound key no lockdown reaches at all.
  */
  lemma {:induction false} KeyLivesUntilReached(states: seq<State>, log: seq<Entry>, m: nat, n: nat, id: RowId)
    requires IsHistory(states, log) && m <= n < |states| && Lives(states[m], id)
    requires forall k :: m <= k < n && id in states[k].rows ==> !Reaches(states[k], log[k].txn, id)
    ensures id in states[n].rows && states[n].rows[id] == states[m].rows[id]
    ensures (id in states[n].mints <==> id in states[m].mints) && (id in states[m].mints ==> states[n].mints[id] == states[m].mints[id])
    ensures n < |log| && Reaches(states[n], log[n].txn, id) ==>
              if log[n].txn.Assign? then
                id in states[n + 1].rows && states[n + 1].rows[id] == states[n].rows[id].(owner := Some(log[n].txn.user))
              else !Lives(states[n + 1], id)
    decreases n
  {
    hide Runs, Reaches;
    if m < n {
      KeyLivesUntilReached(states, log, m, n - 1, id);
      ReachedOrUnchanged(states[n - 1], n - 1, log[n - 1].now, log[n - 1].txn, states[n], id);
    }
    if n < |log| { ReachedOrUnchanged(states[n], n, log[n].now, log[n].txn, states[n + 1], id); }
  }

  /** The transaction ends this session: by its account, or by name. */
  ghost predicate Ends(s: State, txn: Txn, token: string)
    requires token in s.sessions
  {
    var user := s.sessions[token].user;
    match txn
    case LockDown(u) => user == u || IsBotOf(s.users, user, u)
    case DropSessions(tokens) => token in tokens
    case DeleteBot(bot) => bot in s.users && s.users[bot].isBot && user == bot
    case _ => false
  }

  lemma EndedOrUnchanged(s: State, n: nat, now: int, txn: Txn, s': State, token: string)
    requires Sane(s, n) && Runs(s, n, now, txn, s') && token in s.sessions
    ensures if Ends(s, txn, token) then token !in s'.sessions
            else token in s'.sessions && s'.sessions[token] == s.sessions[token]
  {
  }

  /** A session stays as it is through every history until a transaction ends it. */
  lemma {:induction false} SessionLivesUntilEnded(states: seq<State>, log: seq<Entry>, m: nat, n: nat, token: string)
    requires IsHistory(states, log) && m <= n < |states| && token in states[m].sessions
    requires forall k :: m <= k < n && token in states[k].sessions ==> !Ends(states[k], log[k].txn, token)
    ensures token in states[n].sessions && states[n].sessions[token] == states[m].sessions[token]
    ensures n < |log| && Ends(states[n], log[n].txn, token) ==> token !in states[n + 1].sessions
    decreases n
  {
    hide Runs, Ends, Sane;
    if m < n {
      SessionLivesUntilEnded(states, log, m, n - 1, token);
      HistoryIsSane(states, log, n - 1);
      EndedOrUnchanged(states[n - 1], n - 1, log[n - 1].now, log[n - 1].txn, states[n], token);
    }
    if n < |log| {
      HistoryIsSane(states, log, n);
      EndedOrUnchanged(states[n], n, log[n].now, log[n].txn, states[n + 1], token);
    }
  }

  // ---- What else may happen ----

  /** Accounts may be added, switched off and on, and bots deleted with their keys and sessions. */
  lemma AccountsMayChange(s: State, n: nat, now: int, u: UserId, record: User, active: bool)
    ensures u !in s.users ==> Runs(s, n, now, AddUser(u, record), s.(users := s.users[u := record]))
    ensures u in s.users ==> Runs(s, n, now, SetActive(u, active), s.(users := s.users[u := s.users[u].(active := active)]))
    ensures u in s.users && s.users[u].isBot ==> exists s' ::
              && Runs(s, n, now, DeleteBot(u), s') && s'.users == s.users - {u} && s'.mints == s.mints && s'.used == s.used
              && (forall i :: i in s'.rows <==> i in s.rows && s.rows[i].owner != Some(u))
              && (forall t :: t in s'.sessions <==> t in s.sessions && s.sessions[t].user != u)
  {
    var gone := s.(users := s.users - {u}, rows := map i | i in s.rows && s.rows[i].owner != Some(u) :: s.rows[i],
                   sessions := map t | t in s.sessions && s.sessions[t].user != u :: s.sessions[t]);
    assert u in s.users && s.users[u].isBot ==> Runs(s, n, now, DeleteBot(u), gone);
  }

  /** Anyone with an account may log in, sessions may be dropped, and any row revoked. */
  lemma SessionsMayChange(s: State, n: nat, now: int, u: UserId, token: string, expiresAt: int, tokens: set<string>, id: RowId)
    ensures u in s.users && token !in s.used ==>
              Runs(s, n, now, Login(token, u, expiresAt),
                   s.(sessions := s.sessions[token := Session(u, now, expiresAt, n)], used := s.used + {token}))
    ensures exists s' :: Runs(s, n, now, DropSessions(tokens), s') && s' == s.(sessions := s'.sessions)
              && forall t :: t in s'.sessions <==> t in s.sessions && t !in tokens
    ensures id in s.rows ==> Runs(s, n, now, RevokeRow(id), s.(rows := s.rows[id := s.rows[id].(revoked := true)]))
  {
    assert Runs(s, n, now, DropSessions(tokens), s.(sessions := map t | t in s.sessions && t !in tokens :: s.sessions[t]));
  }

  /** The operator may make a key under a free name, revoke one, and give one to a user. */
  lemma OperatorMayAct(s: State, n: nat, now: int, name: string, prepared: Prepared, id: RowId, u: UserId)
    ensures id !in s.rows && (forall i :: i in s.rows ==> s.rows[i].name != name) ==>
              Runs(s, n, now, Operate(Create(name, prepared, Never, None), id, true),
                   s.(rows := s.rows[id := prepared.AsRow(name, Never, None)], mints := s.mints - {id}))
    ensures ActiveNamed(s.rows, name) ==> exists s' :: Runs(s, n, now, Operate(Revoke(name), id, true), s')
    ensures exists s' :: Runs(s, n, now, Assign(name, u), s') && s'.rows.Keys == s.rows.Keys
  {
    if id !in s.rows && forall i :: i in s.rows ==> s.rows[i].name != name {
      assert InsertRefusal(s.rows, name, None) == None && WithoutTombstone(s.rows, name) == s.rows;
    }
    assert ActiveNamed(s.rows, name) ==> Runs(s, n, now, Operate(Revoke(name), id, true), s.(rows := Revoked(s.rows, name)));
    var given := s.(rows := map i | i in s.rows :: if s.rows[i].name == name && !s.rows[i].revoked
                                                   then s.rows[i].(owner := Some(u)) else s.rows[i],
                    mints := s.mints - set i | i in s.rows && s.rows[i].name == name && !s.rows[i].revoked);
    assert Runs(s, n, now, Assign(name, u), given);
  }

  /**
    Locking down a bot alone does not reach its human's sessions: one of them can
    mint the bot a key right afterwards.
  */
  lemma BotLockdownSparesTheHumansSessions(prepared: Prepared) returns (states: seq<State>, log: seq<Entry>)
    ensures IsHistory(states, log) && |log| == 3 && log[1].txn == LockDown(2)
    ensures 7 in states[3].rows && states[3].rows[7].owner == Some(2) && !states[3].rows[7].revoked
    ensures 7 in states[3].mints && states[3].mints[7].born < 1
  {
    var users := map[1 := User(true, false, None, false), 2 := User(true, true, Some(1), false)];
    var s0 := State(users, map[], map[], map[], {});
    var s1 := s0.(sessions := map["s" := Session(1, 0, 100, 0)], used := {"s"});
    var s2 := LockedDown(s1, 2);
    assert s2.sessions == s1.sessions && s2.rows == map[];
    var mint := MintKey("s", 1, "opencode", prepared, Never, 2, 7);
    var s3 := s2.(rows := map[7 := prepared.AsRow("opencode", Never, Some(2))], mints := map[7 := Mint(1, 0, 2)]);
    states := [s0, s1, s2, s3];
    log := [Entry(0, Login("s", 1, 100)), Entry(0, LockDown(2)), Entry(0, mint)];
    assert Runs(s0, 0, 0, log[0].txn, s1);
    assert Runs(s1, 1, 0, log[1].txn, s2);
    assert InsertRefusal(s2.rows, "opencode", Some(2)) == None;
    assert WithoutTombstone(s2.rows, "opencode") == map[];
    assert Runs(s2, 2, 0, mint, s3);
  }
}
