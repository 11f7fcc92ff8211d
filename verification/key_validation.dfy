/**
  `validate_api_key` of `src/auth.rs` under concurrency: any number of requests
  check tokens while keys are created, revoked and rotated, accounts come and
  go, and the clock moves. A legacy Argon2 verifier is replaced in place by a
  compare-and-swap that any of the requests may win.
*/
module KeyValidation {
  import opened Common
  import opened KeyText
  import opened KeyTable
  import opened Accounts

  type Proc = nat

  /** The hash functions, and the tokens ever issued or presented. */
  datatype Crypto = Crypto(checksum: Hash, sha: Hash, keyId: Text -> KeyId, argon: (Text, Text) -> bool, tokens: set<Text>)

  /** The digests tell those tokens apart. */
  ghost predicate NoCollisions(c: Crypto) {
    && (forall a, b :: a in c.tokens && b in c.tokens && c.keyId(a) == c.keyId(b) ==> a == b)
    && (forall a, b :: a in c.tokens && b in c.tokens && c.sha(a) == c.sha(b) ==> a == b)
  }

  /** Does this stored text accept the token? */
  ghost predicate Accepts(c: Crypto, keyHash: Text, token: Text) {
    match ParseStored(keyHash)
    case Sha256(d) => d == c.sha(token)
    case LegacyArgon2(phc) => c.argon(phc, token)
    case Unsupported => false
  }

  datatype Reason = BadChecksum | NotFound | HashMismatch | Inactive | Database

  /** How far a request has come. */
  datatype Pc =
    | Idle
    | Started(token: Text)
    | Loaded(token: Text, id: RowId, stored: Text, owner: Option<UserId>)    // a legacy row was read
    | Verified(token: Text, id: RowId, stored: Text, owner: Option<UserId>)  // Argon2 accepted
    | Missed(token: Text, id: RowId, owner: Option<UserId>)                  // the UPDATE changed no row
    | Matched(token: Text, id: RowId, owner: Option<UserId>)                 // the identity is left to read
    | Accepted(token: Text, id: RowId, owner: Option<UserId>)
    | Rejected(token: Text, reason: Reason)
  {
    predicate InCall() { Started? || Loaded? || Verified? || Missed? || Matched? }
  }

  datatype State = State(rows: Rows, users: Users, now: int, calls: map<Proc, Pc>)

  ghost function Call(s: State, p: Proc): Pc { if p in s.calls then s.calls[p] else Idle }

  ghost function Move(s: State, p: Proc, pc: Pc): State { s.(calls := s.calls[p := pc]) }

  /** `load_active_api_key` can return this row. */
  ghost predicate Selects(c: Crypto, s: State, token: Text, id: RowId) {
    id in s.rows && s.rows[id].keyId == Some(c.keyId(token)) && s.rows[id].Usable(s.now)
  }

  datatype CallStep = Start(token: Text) | CheckFails | Load(id: RowId) | LoadNothing | RunArgon | Swap | Reread | Identify | Fault

  datatype WorldStep =
    | Operate(op: Op, id: RowId, ok: bool)
    | Rebind(name: string, prepared: Prepared, owner: UserId, id: RowId)
    | Assign(name: string, owner: UserId)
    | RevokeRows(ids: set<RowId>) | DeleteRows(ids: set<RowId>)
    | SetUsers(users: Users) | SetClock(now: int)

  ghost predicate Enabled(c: Crypto, s: State, step: CallStep, pc: Pc) {
    match step
    case Start(token) => !pc.InCall() && token in c.tokens
    case CheckFails => pc.Started? && !ValidToken(c.checksum, pc.token)
    case Load(id) => pc.Started? && ValidToken(c.checksum, pc.token) && Selects(c, s, pc.token, id)
    case LoadNothing => pc.Started? && ValidToken(c.checksum, pc.token) && forall id :: !Selects(c, s, pc.token, id)
    case RunArgon => pc.Loaded?
    case Swap => pc.Verified?
    case Reread => pc.Missed?
    case Identify => pc.Matched?
    case Fault => pc.InCall()
  }

  /** Where the step leads. */
  ghost function NextPc(c: Crypto, s: State, step: CallStep, pc: Pc): Pc
    requires Enabled(c, s, step, pc)
  {
    match step
    case Start(token) => Started(token)
    case CheckFails => Rejected(pc.token, BadChecksum)
    case Load(id) =>
      (match ParseStored(s.rows[id].keyHash)
       case Sha256(d) =>
         if d == c.sha(pc.token) then Matched(pc.token, id, s.rows[id].owner) else Rejected(pc.token, HashMismatch)
       case LegacyArgon2(phc) => Loaded(pc.token, id, phc, s.rows[id].owner)
       case Unsupported => Rejected(pc.token, HashMismatch))
    case LoadNothing => Rejected(pc.token, NotFound)
    case RunArgon =>
      if c.argon(pc.stored, pc.token) then Verified(pc.token, pc.id, pc.stored, pc.owner)
      else Rejected(pc.token, HashMismatch)
    case Swap =>
      if Migrates(s.rows, pc.id, pc.stored, c.keyId(pc.token), s.now) then Matched(pc.token, pc.id, pc.owner)
      else Missed(pc.token, pc.id, pc.owner)
    case Reread =>
      if Selects(c, s, pc.token, pc.id) && s.rows[pc.id].keyHash == EncodeVerifier(c.sha(pc.token))
      then Matched(pc.token, pc.id, pc.owner)
      else Rejected(pc.token, HashMismatch)
    case Identify =>
      if pc.owner == None || CredentialLive(s.users, pc.owner.value) then Accepted(pc.token, pc.id, pc.owner)
      else Rejected(pc.token, Inactive)
    case Fault => Rejected(pc.token, Database)
  }

  /** Only the compare-and-swap writes. */
  ghost function NextRows(c: Crypto, s: State, step: CallStep, pc: Pc): Rows
    requires Enabled(c, s, step, pc)
  {
    if step.Swap? then Migrated(s.rows, pc.id, pc.stored, c.keyId(pc.token), c.sha(pc.token), s.now) else s.rows
  }

  ghost predicate CallMoves(c: Crypto, s: State, step: CallStep, p: Proc, s': State) {
    && Enabled(c, s, step, Call(s, p))
    && s' == Move(s, p, NextPc(c, s, step, Call(s, p))).(rows := NextRows(c, s, step, Call(s, p)))
  }

  /** New key material names its own token. */
  ghost predicate Genuine(c: Crypto, prepared: Prepared) {
    prepared.token in c.tokens && prepared.keyId == c.keyId(prepared.token) && prepared.verifier == c.sha(prepared.token)
  }

  ghost predicate WorldMoves(c: Crypto, s: State, step: WorldStep, s': State) {
    match step
    case Operate(op, id, ok) =>
      && (op.Create? || op.Rotate? ==> Genuine(c, op.prepared))
      && Performs(s.rows, op, s.now, id, s'.rows, ok) && s' == s.(rows := s'.rows)
    case Rebind(name, prepared, owner, id) => // rotation to a new owner
      && Genuine(c, prepared) && Rebinds(s.rows, name, prepared, owner, s.now, id, s'.rows)
      && s' == s.(rows := s'.rows)
    case Assign(name, owner) => // an operator gives an active key to a user
      s' == s.(rows := map i | i in s.rows :: if s.rows[i].name == name && !s.rows[i].revoked
                                              then s.rows[i].(owner := Some(owner)) else s.rows[i])
    case DeleteRows(ids) => // the keys of a deleted bot
      s' == s.(rows := s.rows - ids)
    case RevokeRows(ids) => // account lockdown and revocation by id
      s' == s.(rows := map i | i in s.rows :: if i in ids then s.rows[i].(revoked := true) else s.rows[i])
    case SetUsers(users) => s' == s.(users := users)
    case SetClock(now) => s' == s.(now := now)
  }

  datatype Step = ByCall(p: Proc, call: CallStep) | ByWorld(world: WorldStep)

  ghost predicate Next(c: Crypto, s: State, step: Step, s': State) {
    match step
    case ByCall(p, call) => CallMoves(c, s, call, p, s')
    case ByWorld(world) => WorldMoves(c, s, world, s')
  }

  // ---- What holds in every state ----

  /** A row that names a key id accepts no token but the one that id names. */
  ghost predicate Faithful(c: Crypto, rows: Rows) {
    forall i, t :: i in rows && rows[i].keyId.Some? && t in c.tokens && Accepts(c, rows[i].keyHash, t)
      ==> c.keyId(t) == rows[i].keyId.value
  }

  ghost predicate PcOk(c: Crypto, pc: Pc) {
    && (pc != Idle ==> pc.token in c.tokens)
    && (PastLoad(pc) || pc.Accepted? ==> ValidToken(c.checksum, pc.token))
    && (pc.Loaded? || pc.Verified? ==> ParseStored(pc.stored) == LegacyArgon2(pc.stored))
    && (pc.Verified? ==> c.argon(pc.stored, pc.token))
  }

  ghost predicate CallsOk(c: Crypto, s: State) {
    forall p: Proc :: PcOk(c, Call(s, p))
  }

  ghost predicate Inv(c: Crypto, s: State) { Faithful(c, s.rows) && CallsOk(c, s) }

  lemma EncodedAccepts(c: Crypto, token: Text, t: Text)
    requires NoCollisions(c) && token in c.tokens && t in c.tokens
    ensures Accepts(c, EncodeVerifier(c.sha(token)), t) <==> t == token
  {
    StoredVerifierIsSha256(c.sha(token));
  }

  lemma LegacyTextIsItself(keyHash: Text)
    ensures ParseStored(keyHash).LegacyArgon2? ==> ParseStored(keyHash) == LegacyArgon2(keyHash)
  {
  }

  lemma CallKeepsInv(c: Crypto, s: State, step: CallStep, p: Proc, s': State)
    requires NoCollisions(c) && Inv(c, s) && CallMoves(c, s, step, p, s')
    ensures Inv(c, s')
  {
    var pc := Call(s, p);
    assert PcOk(c, pc);
    forall q: Proc ensures PcOk(c, Call(s', q)) {
      assert PcOk(c, Call(s, q));
      if step.Load? { LegacyTextIsItself(s.rows[step.id].keyHash); }
    }
    if step.Swap? && s'.rows != s.rows {
      hide EncodeVerifier;
      forall i, t | i in s'.rows && s'.rows[i].keyId.Some? && t in c.tokens && Accepts(c, s'.rows[i].keyHash, t)
        ensures c.keyId(t) == s'.rows[i].keyId.value
      {
        EncodedAccepts(c, pc.token, t);
      }
    }
  }

  lemma WorldKeepsInv(c: Crypto, s: State, step: WorldStep, s': State)
    requires NoCollisions(c) && Inv(c, s) && WorldMoves(c, s, step, s')
    ensures Inv(c, s')
  {
    assert s'.calls == s.calls;
    assert forall q: Proc :: Call(s', q) == Call(s, q);
    if step.Rebind? {
      forall i, t | i in s'.rows && s'.rows[i].keyId.Some? && t in c.tokens && Accepts(c, s'.rows[i].keyHash, t)
        ensures c.keyId(t) == s'.rows[i].keyId.value
      {
        if i == step.id { EncodedAccepts(c, step.prepared.token, t); } else { assert s'.rows[i] == s.rows[i]; }
      }
    } else if step.Operate? && step.ok {
      forall i, t | i in s'.rows && s'.rows[i].keyId.Some? && t in c.tokens && Accepts(c, s'.rows[i].keyHash, t)
        ensures c.keyId(t) == s'.rows[i].keyId.value
      {
        if !step.op.Revoke? && i == step.id {
          EncodedAccepts(c, step.op.prepared.token, t);
        } else {
          assert i in s.rows && s'.rows[i].keyHash == s.rows[i].keyHash && s'.rows[i].keyId == s.rows[i].keyId;
        }
      }
    }
  }

  // ---- Whole runs ----

  ghost predicate IsRun(c: Crypto, run: seq<State>, steps: seq<Step>) {
    && NoCollisions(c) && |run| == |steps| + 1
    && Faithful(c, run[0].rows) && run[0].calls == map[]
    && forall k :: 0 <= k < |steps| ==> Next(c, run[k], steps[k], run[k + 1])
  }

  lemma {:induction false} RunKeepsInv(c: Crypto, run: seq<State>, steps: seq<Step>, k: nat)
    requires IsRun(c, run, steps) && k < |run|
    ensures Inv(c, run[k])
  {
    hide CallMoves, WorldMoves, Faithful, PcOk;
    if k == 0 {
      assert forall p: Proc :: Call(run[0], p) == Idle;
      assert PcOk(c, Idle) by { IdleIsOk(c); }
    } else {
      RunKeepsInv(c, run, steps, k - 1);
      assert Next(c, run[k - 1], steps[k - 1], run[k]);
      match steps[k - 1]
      case ByCall(p, call) => CallKeepsInv(c, run[k - 1], call, p, run[k]);
      case ByWorld(world) => WorldKeepsInv(c, run[k - 1], world, run[k]);
    }
  }

  lemma IdleIsOk(c: Crypto)
    ensures PcOk(c, Idle)
  {
  }

  /**
    No row ever accepts a token other than the one its key id names, whichever
    requests raced to migrate it and whatever ids rotation reuses.
  */
  lemma NoRowHoldsAForeignVerifier(c: Crypto, run: seq<State>, steps: seq<Step>, k: nat, id: RowId, named: Text, t: Text)
    requires IsRun(c, run, steps) && k < |run| && id in run[k].rows
    requires named in c.tokens && t in c.tokens && run[k].rows[id].keyId == Some(c.keyId(named))
    requires Accepts(c, run[k].rows[id].keyHash, t)
    ensures t == named
  {
    RunKeepsInv(c, run, steps, k);
  }

  /** A request, whatever it does to a row, changes no more than that row's verifier. */
  lemma RequestsChangeOnlyVerifiers(c: Crypto, s: State, step: CallStep, p: Proc, s': State)
    requires CallMoves(c, s, step, p, s')
    ensures s'.rows.Keys == s.rows.Keys && s'.users == s.users && s'.now == s.now
    ensures forall i :: i in s.rows ==> s'.rows[i] == s.rows[i].(keyHash := s'.rows[i].keyHash)
    ensures forall i :: i in s.rows && s'.rows[i] != s.rows[i] ==> s.rows[i].Usable(s.now) && ParseStored(s'.rows[i].keyHash).Sha256?
  {
    var pc := Call(s, p);
    if step.Swap? { StoredVerifierIsSha256(c.sha(pc.token)); }
  }

  /** The row was usable and accepted the token in this state. */
  ghost predicate UsableMatch(c: Crypto, s: State, token: Text, id: RowId) {
    && id in s.rows
    && var row := s.rows[id];
       && row.keyId == Some(c.keyId(token)) && !row.revoked
       && (row.expires == Never || (row.expires.At? && row.expires.time > s.now))
       && (|| ParseStored(row.keyHash) == Sha256(c.sha(token))
           || (ParseStored(row.keyHash).LegacyArgon2? && c.argon(ParseStored(row.keyHash).phc, token)))
  }

  /** From state `first` to `last`, process `p` is inside one call that presents `token`. */
  ghost predicate Calling(run: seq<State>, p: Proc, token: Text, first: nat, last: nat) {
    && first <= last < |run| && Call(run[first], p) == Started(token)
    && forall k :: first <= k <= last ==> Call(run[k], p).InCall() && Call(run[k], p).token == token
  }

  /** In state `at` of the call, after any Argon2 check it ran, the row could have been accepted. */
  ghost predicate Justifies(c: Crypto, run: seq<State>, p: Proc, token: Text, id: RowId, first: nat, at: nat, last: nat) {
    && Calling(run, p, token, first, last) && first <= at <= last
    && UsableMatch(c, run[at], token, id)
    && forall k :: first <= k <= last && Call(run[k], p).Loaded? ==> k < at
  }

  /** The call ended in state `end + 1` and has stood accepted since. */
  ghost predicate AcceptedSince(run: seq<State>, p: Proc, end: nat, last: nat) {
    end < last < |run| && Call(run[last], p).Accepted? && forall k :: end < k <= last ==> Call(run[k], p) == Call(run[last], p)
  }

  ghost predicate Justified(c: Crypto, run: seq<State>, p: Proc, last: nat)
    requires last < |run|
  {
    var pc := Call(run[last], p);
    match pc
    case Idle => true
    case Rejected(_, _) => true
    case Matched(token, id, _) => exists first, at :: Justifies(c, run, p, token, id, first, at, last)
    case Accepted(token, id, _) =>
      exists first, at, end :: Justifies(c, run, p, token, id, first, at, end) && AcceptedSince(run, p, end, last)
    case _ => exists first :: Calling(run, p, pc.token, first, last)
  }

  lemma ExtendCalling(run: seq<State>, p: Proc, token: Text, first: nat, last: nat)
    requires last + 1 < |run| && Calling(run, p, token, first, last)
    requires Call(run[last + 1], p).InCall() && Call(run[last + 1], p).token == token
    ensures Calling(run, p, token, first, last + 1)
  {
  }

  /** A request goes on with its own token, and is accepted for the row it matched. */
  lemma OwnStep(c: Crypto, s: State, call: CallStep, p: Proc, s': State)
    requires CallMoves(c, s, call, p, s')
    ensures var pc, pc' := Call(s, p), Call(s', p);
            && (pc'.InCall() && !pc'.Started? ==> pc.InCall() && pc'.token == pc.token && !(pc.Loaded? && pc'.Matched?))
            && (pc'.Accepted? ==> pc.Matched? && pc'.token == pc.token && pc'.id == pc.id)
            && (pc'.Started? ==> pc'.token in c.tokens)
            && pc' != Idle
  {
    hide NextPc, NextRows, Enabled;
    assert Call(s', p) == NextPc(c, s, call, Call(s, p));
    OwnPlace(c, s, call, Call(s, p));
  }

  lemma OwnPlace(c: Crypto, s: State, call: CallStep, pc: Pc)
    requires Enabled(c, s, call, pc)
    ensures var pc' := NextPc(c, s, call, pc);
            && (pc'.InCall() && !pc'.Started? ==> pc.InCall() && pc'.token == pc.token && !(pc.Loaded? && pc'.Matched?))
            && (pc'.Accepted? ==> pc.Matched? && pc'.token == pc.token && pc'.id == pc.id)
            && (pc'.Started? ==> pc'.token in c.tokens)
            && pc' != Idle
  {
    hide ParseStored, EncodeVerifier, ValidToken, CredentialLive, Selects, Migrates;
  }

  /** A row is matched only while it is usable and accepts the token. */
  lemma MatchedRowAccepts(c: Crypto, s: State, call: CallStep, p: Proc, s': State)
    requires CallMoves(c, s, call, p, s') && PcOk(c, Call(s, p)) && Call(s', p).Matched?
    ensures UsableMatch(c, s, Call(s, p).token, Call(s', p).id)
  {
    hide EncodeVerifier;
    if Call(s, p) != Idle { StoredVerifierIsSha256(c.sha(Call(s, p).token)); }
    hide ParseStored;
  }

  lemma CallBegan(c: Crypto, run: seq<State>, p: Proc, last: nat) returns (first: nat)
    requires last < |run| && Justified(c, run, p, last) && Call(run[last], p).InCall() && !Call(run[last], p).Matched?
    ensures Calling(run, p, Call(run[last], p).token, first, last)
  {
    hide Calling;
    first :| Calling(run, p, Call(run[last], p).token, first, last);
  }

  lemma StartIsJustified(c: Crypto, run: seq<State>, p: Proc, k: nat)
    requires k < |run| && Call(run[k], p).Started?
    ensures Justified(c, run, p, k)
  {
    assert Calling(run, p, Call(run[k], p).token, k, k);
  }

  lemma CallGoesOn(c: Crypto, run: seq<State>, p: Proc, first: nat, last: nat)
    requires last + 1 < |run| && Call(run[last], p) != Idle && Calling(run, p, Call(run[last], p).token, first, last)
    requires Call(run[last + 1], p).InCall() && !Call(run[last + 1], p).Matched?
    requires Call(run[last + 1], p).token == Call(run[last], p).token
    ensures Justified(c, run, p, last + 1)
  {
    ExtendCalling(run, p, Call(run[last], p).token, first, last);
    hide Calling;
  }

  lemma MatchIsJustified(c: Crypto, run: seq<State>, p: Proc, first: nat, last: nat)
    requires last + 1 < |run| && Call(run[last], p) != Idle && Calling(run, p, Call(run[last], p).token, first, last)
    requires !Call(run[last], p).Loaded?
    requires Call(run[last + 1], p).Matched? && Call(run[last + 1], p).token == Call(run[last], p).token
    requires UsableMatch(c, run[last], Call(run[last], p).token, Call(run[last + 1], p).id)
    ensures Justified(c, run, p, last + 1)
  {
    ExtendCalling(run, p, Call(run[last], p).token, first, last);
    assert Justifies(c, run, p, Call(run[last], p).token, Call(run[last + 1], p).id, first, last, last + 1);
  }

  lemma AcceptanceEnds(c: Crypto, run: seq<State>, p: Proc, last: nat)
    requires last + 1 < |run| && Justified(c, run, p, last) && Call(run[last], p).Matched?
    requires Call(run[last + 1], p).Accepted? && Call(run[last + 1], p).token == Call(run[last], p).token
    requires Call(run[last + 1], p).id == Call(run[last], p).id
    ensures Justified(c, run, p, last + 1)
  {
    hide Justifies;
    assert AcceptedSince(run, p, last, last + 1);
  }

  /** The request's own step keeps the justification going, or finds it. */
  lemma OwnStepJustifies(c: Crypto, run: seq<State>, p: Proc, call: CallStep, last: nat)
    requires last + 1 < |run| && Justified(c, run, p, last) && PcOk(c, Call(run[last], p))
    requires CallMoves(c, run[last], call, p, run[last + 1])
    ensures Justified(c, run, p, last + 1)
  {
    var pc' := Call(run[last + 1], p);
    OwnStep(c, run[last], call, p, run[last + 1]);
    if pc'.Rejected? {
    } else {
      if pc'.Matched? { MatchedRowAccepts(c, run[last], call, p, run[last + 1]); }
      hide Call, CallMoves, PcOk, UsableMatch, Justified, Calling;
      if pc'.Started? {
        StartIsJustified(c, run, p, last + 1);
      } else if pc'.Accepted? {
        AcceptanceEnds(c, run, p, last);
      } else if pc'.Matched? {
        MatchedComesFrom(c, run[last], call, p, run[last + 1]);
        var first := CallBegan(c, run, p, last);
        MatchIsJustified(c, run, p, first, last);
      } else {
        MatchedComesFrom(c, run[last], call, p, run[last + 1]);
        var first := CallBegan(c, run, p, last);
        CallGoesOn(c, run, p, first, last);
      }
    }
  }

  /** A matched request makes no further step inside its call. */
  lemma MatchedComesFrom(c: Crypto, s: State, call: CallStep, p: Proc, s': State)
    requires CallMoves(c, s, call, p, s') && Call(s', p).InCall() && !Call(s', p).Started?
    ensures !Call(s, p).Matched?
  {
  }

  lemma OtherStepJustifies(c: Crypto, run: seq<State>, p: Proc, last: nat)
    requires last + 1 < |run| && Justified(c, run, p, last) && Call(run[last + 1], p) == Call(run[last], p)
    ensures Justified(c, run, p, last + 1)
  {
    hide UsableMatch;
    var pc := Call(run[last], p);
    if pc.Matched? {
      var first, at :| Justifies(c, run, p, pc.token, pc.id, first, at, last);
      ExtendCalling(run, p, pc.token, first, last);
      assert Justifies(c, run, p, pc.token, pc.id, first, at, last + 1);
    } else if pc.Accepted? {
      var first, at, end :| Justifies(c, run, p, pc.token, pc.id, first, at, end) && AcceptedSince(run, p, end, last);
      assert AcceptedSince(run, p, end, last + 1);
    } else if pc.InCall() {
      var first :| Calling(run, p, pc.token, first, last);
      ExtendCalling(run, p, pc.token, first, last);
    }
  }

  lemma {:induction false} RunJustifies(c: Crypto, run: seq<State>, steps: seq<Step>, p: Proc, last: nat)
    requires IsRun(c, run, steps) && last < |run|
    ensures Justified(c, run, p, last)
  {
    if last > 0 {
      RunJustifies(c, run, steps, p, last - 1);
      assert Next(c, run[last - 1], steps[last - 1], run[last]);
      hide CallMoves, WorldMoves, Justified, Faithful, PcOk;
      if steps[last - 1].ByCall? && steps[last - 1].p == p {
        RunKeepsInv(c, run, steps, last - 1);
        OwnStepJustifies(c, run, p, steps[last - 1].call, last - 1);
      } else {
        OthersStay(c, run[last - 1], steps[last - 1], run[last], p);
        OtherStepJustifies(c, run, p, last - 1);
      }
    }
  }

  /**
    A request that accepts saw, at some instant inside its own call and after
    its Argon2 check if it ran one, the row unrevoked, unexpired and accepting
    exactly this token.
  */
  lemma AcceptanceIsJustified(c: Crypto, run: seq<State>, steps: seq<Step>, p: Proc, last: nat)
    requires IsRun(c, run, steps) && last < |run| && Call(run[last], p).Accepted?
    ensures exists first, at, end ::
              && Justifies(c, run, p, Call(run[last], p).token, Call(run[last], p).id, first, at, end)
              && AcceptedSince(run, p, end, last)
    ensures ValidToken(c.checksum, Call(run[last], p).token)
  {
    RunJustifies(c, run, steps, p, last);
    RunKeepsInv(c, run, steps, last);
    assert PcOk(c, Call(run[last], p));
  }

  // ---- Whose key it is, and why a request is refused ----

  /** What follows the read of a row, up to the answer. */
  predicate PastLoad(pc: Pc) { pc.Loaded? || pc.Verified? || pc.Missed? || pc.Matched? }

  /** In state `load` the request, just started, read this usable row; it has gone on with the row's id, owner and text. */
  ghost predicate ReadAt(c: Crypto, run: seq<State>, p: Proc, load: nat, last: nat)
    requires last < |run| && PastLoad(Call(run[last], p))
  {
    var pc := Call(run[last], p);
    && load < last && Call(run[load], p) == Started(pc.token) && pc.id in run[load].rows
    && var row := run[load].rows[pc.id];
       && row.keyId == Some(c.keyId(pc.token)) && row.owner == pc.owner
       && (pc.Loaded? || pc.Verified? ==> ParseStored(row.keyHash) == LegacyArgon2(pc.stored))
       && forall k :: load < k <= last ==>
            PastLoad(Call(run[k], p)) && Call(run[k], p).token == pc.token && Call(run[k], p).id == pc.id
  }

  /** The step of a request that has read its row keeps what it read. */
  lemma OwnStepKeepsTheRead(c: Crypto, s: State, call: CallStep, p: Proc, s': State)
    requires CallMoves(c, s, call, p, s') && PastLoad(Call(s', p))
    ensures var pc, pc' := Call(s, p), Call(s', p);
            if pc.Started? then
              && pc.token == pc'.token && pc'.id in s.rows && s.rows[pc'.id].keyId == Some(c.keyId(pc'.token))
              && s.rows[pc'.id].owner == pc'.owner
              && (pc'.Loaded? || pc'.Verified? ==> ParseStored(s.rows[pc'.id].keyHash) == LegacyArgon2(pc'.stored))
            else
              && PastLoad(pc) && pc.token == pc'.token && pc'.id == pc.id && pc'.owner == pc.owner
              && (pc'.Loaded? || pc'.Verified? ==> (pc.Loaded? || pc.Verified?) && pc'.stored == pc.stored)
  {
    hide ParseStored, EncodeVerifier, ValidToken, NextRows, Accepts;
  }

  lemma {:induction false} RowWasRead(c: Crypto, run: seq<State>, steps: seq<Step>, p: Proc, last: nat)
    requires IsRun(c, run, steps) && last < |run| && PastLoad(Call(run[last], p))
    ensures exists load: nat :: ReadAt(c, run, p, load, last)
  {
    assert last > 0;
    var before: nat := last - 1;
    assert Next(c, run[before], steps[before], run[last]);
    hide CallMoves, WorldMoves, ParseStored;
    if steps[before].ByCall? && steps[before].p == p {
      OwnStepKeepsTheRead(c, run[before], steps[before].call, p, run[last]);
      if Call(run[before], p).Started? {
        assert ReadAt(c, run, p, before, last);
      } else {
        RowWasRead(c, run, steps, p, before);
        var load: nat :| ReadAt(c, run, p, load, before);
        assert ReadAt(c, run, p, load, last);
      }
    } else {
      OthersStay(c, run[before], steps[before], run[last], p);
      RowWasRead(c, run, steps, p, before);
      var load: nat :| ReadAt(c, run, p, load, before);
      assert ReadAt(c, run, p, load, last);
    }
  }

  ghost predicate StepsTo(c: Crypto, s: State, p: Proc, s': State) { exists call :: CallMoves(c, s, call, p, s') }

  /** The request was decided by its own step from state `at`, and the answer has stood since. */
  ghost predicate DecidedAt(c: Crypto, run: seq<State>, p: Proc, at: nat, last: nat) {
    && at < last < |run| && Call(run[at], p).InCall() && !Call(run[last], p).InCall()
    && StepsTo(c, run[at], p, run[at + 1])
    && forall k :: at < k <= last ==> Call(run[k], p) == Call(run[last], p)
  }

  lemma {:induction false} WasDecided(c: Crypto, run: seq<State>, steps: seq<Step>, p: Proc, last: nat)
    requires IsRun(c, run, steps) && last < |run| && (Call(run[last], p).Accepted? || Call(run[last], p).Rejected?)
    ensures exists at: nat :: DecidedAt(c, run, p, at, last)
  {
    assert last > 0;
    var before: nat := last - 1;
    assert Next(c, run[before], steps[before], run[last]);
    if steps[before].ByCall? && steps[before].p == p {
      DecidedInCall(c, run[before], steps[before].call, p, run[last]);
      assert DecidedAt(c, run, p, before, last);
    } else {
      OthersStay(c, run[before], steps[before], run[last], p);
      hide CallMoves, WorldMoves, IsRun, Call;
      WasDecided(c, run, steps, p, before);
      var at: nat :| DecidedAt(c, run, p, at, before);
      assert DecidedAt(c, run, p, at, last);
    }
  }

  lemma DecidedInCall(c: Crypto, s: State, call: CallStep, p: Proc, s': State)
    requires CallMoves(c, s, call, p, s') && (Call(s', p).Accepted? || Call(s', p).Rejected?)
    ensures Call(s, p).InCall()
  {
  }

  lemma AcceptedFrom(c: Crypto, s: State, call: CallStep, p: Proc, s': State)
    requires CallMoves(c, s, call, p, s') && Call(s', p).Accepted?
    ensures var pc := Call(s, p);
            && pc.Matched? && Call(s', p) == Accepted(pc.token, pc.id, pc.owner)
            && forall u :: pc.owner == Some(u) ==> ActiveAccount(s.users, u)
  {
    hide ParseStored, EncodeVerifier, ValidToken, NextRows;
    var pc := Call(s, p);
    if pc.Matched? && pc.owner.Some? { LiveIsActive(s.users, pc.owner.value); }
  }

  lemma ActiveOnFields(users: Users, owner: Option<UserId>)
    requires forall u :: owner == Some(u) ==> ActiveAccount(users, u)
    ensures forall u :: owner == Some(u) ==>
              && u in users && users[u].active
              && forall o :: users[u].isBot && users[u].owner == Some(o) && o in users ==> users[o].active
  {
  }

  /**
    Over every run: the identity an accepted request reports is the owner the row
    had when the request read it, and if that is an account it was active when the
    request was decided, and for a bot so was its owner.
  */
  lemma AcceptedOwnerIsActive(c: Crypto, run: seq<State>, steps: seq<Step>, p: Proc, last: nat)
    requires IsRun(c, run, steps) && last < |run| && Call(run[last], p).Accepted?
    ensures var pc := Call(run[last], p);
            exists load: nat, at: nat ::
              && load < at && DecidedAt(c, run, p, at, last)
              && Call(run[load], p) == Started(pc.token) && (forall k :: load <= k <= at ==> Call(run[k], p).InCall())
              && pc.id in run[load].rows && run[load].rows[pc.id].owner == pc.owner
              && forall u :: pc.owner == Some(u) ==>
                   && u in run[at].users && run[at].users[u].active
                   && forall owner :: run[at].users[u].isBot && run[at].users[u].owner == Some(owner) && owner in run[at].users ==>
                        run[at].users[owner].active
  {
    hide IsRun, CallMoves, ActiveAccount;
    WasDecided(c, run, steps, p, last);
    var at: nat :| DecidedAt(c, run, p, at, last);
    var call :| CallMoves(c, run[at], call, p, run[at + 1]);
    AcceptedFrom(c, run[at], call, p, run[at + 1]);
    RowWasRead(c, run, steps, p, at);
    var load := OwnerWasRead(c, run, p, at);
    ActiveOnFields(run[at].users, Call(run[last], p).owner);
  }

  lemma OwnerWasRead(c: Crypto, run: seq<State>, p: Proc, at: nat) returns (load: nat)
    requires at < |run| && Call(run[at], p).Matched? && exists l: nat :: ReadAt(c, run, p, l, at)
    ensures var pc := Call(run[at], p);
            && load < at && Call(run[load], p) == Started(pc.token) && (forall k :: load <= k <= at ==> Call(run[k], p).InCall())
            && pc.id in run[load].rows && run[load].rows[pc.id].owner == pc.owner
  {
    load :| ReadAt(c, run, p, load, at);
  }

  /** A row of the token's key id holds a text that does not accept it. */
  ghost predicate BadText(c: Crypto, s: State, token: Text, i: RowId) {
    i in s.rows && s.rows[i].keyId == Some(c.keyId(token)) && !Accepts(c, s.rows[i].keyHash, token)
  }

  /** The reason of a refusal, read off the state it was given in: fields of the rows and accounts only. */
  ghost predicate Reasoned(c: Crypto, s: State, pc: Pc, reason: Reason)
    requires pc.InCall()
  {
    match reason
    case BadChecksum => !ValidToken(c.checksum, pc.token)
    case NotFound =>
      ValidToken(c.checksum, pc.token) && forall i :: i in s.rows && s.rows[i].keyId == Some(c.keyId(pc.token)) ==>
        s.rows[i].revoked || s.rows[i].expires == Malformed || (s.rows[i].expires.At? && s.rows[i].expires.time <= s.now)
    case HashMismatch =>
      || (pc.Started? && exists i :: BadText(c, s, pc.token, i))
      || (pc.Loaded? && !c.argon(pc.stored, pc.token))
      || (pc.Missed? && !(UsableMatch(c, s, pc.token, pc.id) && s.rows[pc.id].keyHash == EncodeVerifier(c.sha(pc.token))))
    case Inactive => pc.Matched? && pc.owner.Some? && !ActiveAccount(s.users, pc.owner.value)
    case Database => true
  }

  lemma RefusedFrom(c: Crypto, s: State, call: CallStep, p: Proc, s': State)
    requires CallMoves(c, s, call, p, s') && Call(s', p).Rejected?
    ensures Call(s, p).InCall() && Call(s', p).token == Call(s, p).token && Reasoned(c, s, Call(s, p), Call(s', p).reason)
  {
    hide EncodeVerifier, ValidToken, NextRows;
    if Call(s, p).Missed? { StoredVerifierIsSha256(c.sha(Call(s, p).token)); }
    if call.Fault? {
    } else {
      match Call(s, p)
      case Started(token) =>
        if call.Load? {
          assert !Accepts(c, s.rows[call.id].keyHash, token);
          assert BadText(c, s, token, call.id);
        } else if call.LoadNothing? {
          assert forall i :: i in s.rows ==> !Selects(c, s, token, i);
        }
      case Matched(_, _, owner) =>
        if owner.Some? { LiveIsActive(s.users, owner.value); }
      case _ =>
    }
  }

  lemma RefusedTokenIsValid(c: Crypto, s: State, call: CallStep, p: Proc, s': State)
    requires CallMoves(c, s, call, p, s') && PcOk(c, Call(s, p)) && Call(s', p).Rejected?
    ensures Call(s', p).reason in {NotFound, HashMismatch, Inactive} ==> ValidToken(c.checksum, Call(s, p).token)
  {
    hide EncodeVerifier, ValidToken, NextRows, ParseStored;
  }

  /**
    Over every run each refusal has its reason in the state it was decided in. No
    row is overlooked, no good text refused, no live account called inactive; and
    what was read of a legacy row is what an earlier state of the same call held.
  */
  lemma RefusalIsJustified(c: Crypto, run: seq<State>, steps: seq<Step>, p: Proc, last: nat)
    requires IsRun(c, run, steps) && last < |run| && Call(run[last], p).Rejected?
    ensures exists at: nat ::
              && DecidedAt(c, run, p, at, last) && Call(run[at], p).token == Call(run[last], p).token
              && Reasoned(c, run[at], Call(run[at], p), Call(run[last], p).reason)
              && (PastLoad(Call(run[at], p)) ==> exists load: nat :: ReadAt(c, run, p, load, at))
              && (Call(run[last], p).reason in {NotFound, HashMismatch, Inactive} ==> ValidToken(c.checksum, Call(run[at], p).token))
  {
    hide IsRun, CallMoves, Reasoned;
    WasDecided(c, run, steps, p, last);
    var at: nat :| DecidedAt(c, run, p, at, last);
    var call :| CallMoves(c, run[at], call, p, run[at + 1]);
    RefusedFrom(c, run[at], call, p, run[at + 1]);
    RunKeepsInv(c, run, steps, at);
    assert PcOk(c, Call(run[at], p));
    RefusedTokenIsValid(c, run[at], call, p, run[at + 1]);
    if PastLoad(Call(run[at], p)) { RowWasRead(c, run, steps, p, at); }
  }

  // ---- Many validations of one key ----

  /**
    Row `id` holds the key of `token` all along: nothing revokes, rotates,
    reassigns or expires it, no other usable row has its key id, and its owner
    stays live.
  */
  ghost predicate Undisturbed(c: Crypto, run: seq<State>, token: Text, id: RowId) {
    && (forall k :: 0 <= k < |run| ==> HoldsAlone(c, run[k], token, id))
    && (forall k :: 0 < k < |run| ==> run[k].rows[id].owner == run[0].rows[id].owner)
  }

  ghost predicate HoldsAlone(c: Crypto, s: State, token: Text, id: RowId) {
    && Selects(c, s, token, id) && (forall j :: Selects(c, s, token, j) ==> j == id)
    && (s.rows[id].owner == None || CredentialLive(s.users, s.rows[id].owner.value))
  }

  /** A stored text of the token: its SHA-256 verifier, or a legacy text that accepts it. */
  ghost predicate GoodText(c: Crypto, text: Text, token: Text) {
    text == EncodeVerifier(c.sha(token)) || (ParseStored(text) == LegacyArgon2(text) && c.argon(text, token))
  }

  /** The row still has its legacy text, or already the SHA-256 verifier of the token. */
  ghost predicate Migrating(c: Crypto, s: State, token: Text, id: RowId, text: Text) {
    id in s.rows && (s.rows[id].keyHash == text || s.rows[id].keyHash == EncodeVerifier(c.sha(token)))
  }

  ghost predicate Settled(c: Crypto, s: State, token: Text, id: RowId) {
    id in s.rows && s.rows[id].keyHash == EncodeVerifier(c.sha(token))
  }

  /** A request for the token has not failed and cannot fail where it stands. */
  ghost predicate OnTrack(c: Crypto, s: State, token: Text, id: RowId, text: Text, pc: Pc) {
    pc != Idle && pc.token == token ==>
      && (pc.Rejected? ==> pc.reason == Database)
      && (pc.InCall() && !pc.Started? ==> pc.id == id && id in s.rows && pc.owner == s.rows[id].owner)
      && (pc.Loaded? || pc.Verified? ==> pc.stored == text)
      && (pc.Missed? ==> Settled(c, s, token, id))
  }

  ghost predicate AllOnTrack(c: Crypto, s: State, token: Text, id: RowId, text: Text) {
    Migrating(c, s, token, id, text) && forall p: Proc :: OnTrack(c, s, token, id, text, Call(s, p))
  }

  /** Whoever moves, the row's owner stays unless an operator assigns it, and its verifier only ever becomes the token's own. */
  lemma RowOnlyMigrates(c: Crypto, s: State, step: Step, s': State, token: Text, id: RowId)
    requires NoCollisions(c) && Inv(c, s) && token in c.tokens && Next(c, s, step, s')
    requires Selects(c, s, token, id) && Selects(c, s', token, id)
    ensures s'.rows[id].owner == s.rows[id].owner || (step.ByWorld? && step.world.Assign?)
    ensures s'.rows[id].keyHash == s.rows[id].keyHash || Settled(c, s', token, id)
  {
  }

  lemma CallStaysOnTrack(c: Crypto, s: State, call: CallStep, p: Proc, s': State, token: Text, id: RowId, text: Text)
    requires NoCollisions(c) && Inv(c, s) && token in c.tokens && ValidToken(c.checksum, token)
    requires CallMoves(c, s, call, p, s') && AllOnTrack(c, s, token, id, text)
    requires HoldsAlone(c, s, token, id)
    requires GoodText(c, text, token)
    ensures OnTrack(c, s', token, id, text, Call(s', p))
  {
    hide NextPc, NextRows, Faithful, EncodeVerifier, ParseStored, Selects;
    var pc := Call(s, p);
    assert OnTrack(c, s, token, id, text, pc) && PcOk(c, pc);
    NextIsOnTrack(c, s, call, pc, s', token, id, text);
  }

  lemma NextIsOnTrack(c: Crypto, s: State, call: CallStep, pc: Pc, s': State, token: Text, id: RowId, text: Text)
    requires NoCollisions(c) && token in c.tokens && ValidToken(c.checksum, token) && PcOk(c, pc)
    requires Enabled(c, s, call, pc) && s'.rows == NextRows(c, s, call, pc)
    requires Migrating(c, s, token, id, text) && OnTrack(c, s, token, id, text, pc)
    requires HoldsAlone(c, s, token, id) && GoodText(c, text, token)
    ensures OnTrack(c, s', token, id, text, NextPc(c, s, call, pc))
  {
    hide EncodeVerifier, ParseStored, ValidToken;
    StoredVerifierIsSha256(c.sha(token));
    assert Selects(c, s, token, id);
  }

  lemma StepStaysOnTrack(c: Crypto, s: State, step: Step, s': State, token: Text, id: RowId, text: Text)
    requires NoCollisions(c) && Inv(c, s) && token in c.tokens && ValidToken(c.checksum, token)
    requires Next(c, s, step, s') && AllOnTrack(c, s, token, id, text)
    requires HoldsAlone(c, s, token, id) && HoldsAlone(c, s', token, id) && s'.rows[id].owner == s.rows[id].owner
    requires GoodText(c, text, token)
    ensures AllOnTrack(c, s', token, id, text)
    ensures Settled(c, s, token, id) ==> Settled(c, s', token, id)
  {
    RowOnlyMigrates(c, s, step, s', token, id);
    forall p: Proc ensures OnTrack(c, s', token, id, text, Call(s', p)) {
      assert OnTrack(c, s, token, id, text, Call(s, p));
      if step.ByCall? && step.p == p {
        CallStaysOnTrack(c, s, step.call, p, s', token, id, text);
      } else {
        assert Call(s', p) == Call(s, p) by { OthersStay(c, s, step, s', p); }
        hide Next, CallMoves, WorldMoves;
      }
    }
  }

  lemma OthersStay(c: Crypto, s: State, step: Step, s': State, p: Proc)
    requires Next(c, s, step, s') && !(step.ByCall? && step.p == p)
    ensures Call(s', p) == Call(s, p)
  {
  }

  lemma {:induction false} StaysOnTrack(c: Crypto, run: seq<State>, steps: seq<Step>, token: Text, id: RowId, text: Text, k: nat)
    requires IsRun(c, run, steps) && Undisturbed(c, run, token, id) && k < |run|
    requires token in c.tokens && ValidToken(c.checksum, token)
    requires GoodText(c, text, token)
    requires id in run[0].rows && run[0].rows[id].keyHash == text
    ensures AllOnTrack(c, run[k], token, id, text)
    ensures forall j :: 0 <= j <= k && Settled(c, run[j], token, id) ==> Settled(c, run[k], token, id)
  {
    if k == 0 {
      assert forall p: Proc :: Call(run[0], p) == Idle;
    } else {
      hide Next, AllOnTrack, HoldsAlone, Inv, Settled;
      StaysOnTrack(c, run, steps, token, id, text, k - 1);
      RunKeepsInv(c, run, steps, k - 1);
      StepStaysOnTrack(c, run[k - 1], steps[k - 1], run[k], token, id, text);
    }
  }

  /** Steps a request still has to take until it is decided. */
  function Remaining(pc: Pc): nat {
    match pc
    case Started(_) => 5
    case Loaded(_, _, _, _) => 4
    case Verified(_, _, _, _) => 3
    case Missed(_, _, _) => 2
    case Matched(_, _, _) => 1
    case _ => 0
  }

  /**
    However many requests validate one key at once, none is refused
    unless a database call fails; the step each takes next exists and brings it
    nearer to acceptance; and once one has migrated the row, the row keeps that
    token's SHA-256 verifier.
  */
  lemma EveryConcurrentValidationAccepts(
      c: Crypto, run: seq<State>, steps: seq<Step>, token: Text, id: RowId, text: Text, k: nat, p: Proc)
    requires IsRun(c, run, steps) && Undisturbed(c, run, token, id) && k < |run|
    requires token in c.tokens && ValidToken(c.checksum, token)
    requires GoodText(c, text, token)
    requires id in run[0].rows && run[0].rows[id].keyHash == text
    requires Call(run[k], p) != Idle && Call(run[k], p).token == token
    ensures Call(run[k], p).Rejected? ==> Call(run[k], p).reason == Database
    ensures Call(run[k], p).InCall() ==>
              exists call, s' :: CallMoves(c, run[k], call, p, s') && !call.Fault?
    ensures forall call, s' :: CallMoves(c, run[k], call, p, s') && !call.Fault? && !call.Start? ==>
              Remaining(Call(s', p)) < Remaining(Call(run[k], p)) && (Call(s', p).InCall() || Call(s', p).Accepted?)
    ensures forall j :: k <= j < |run| && Settled(c, run[k], token, id) ==> Settled(c, run[j], token, id)
  {
    var s := run[k];
    var pc := Call(s, p);
    StaysOnTrack(c, run, steps, token, id, text, k);
    RunKeepsInv(c, run, steps, k);
    assert OnTrack(c, s, token, id, text, pc) && PcOk(c, pc) && Selects(c, s, token, id);
    StepsApproach(c, s, p, token, id, text);
    StaysSettled(c, run, steps, token, id, text, k);
    if pc.InCall() { NextStepExists(c, s, p, id); }
  }

  lemma StepsApproach(c: Crypto, s: State, p: Proc, token: Text, id: RowId, text: Text)
    requires NoCollisions(c) && Inv(c, s) && token in c.tokens && ValidToken(c.checksum, token)
    requires AllOnTrack(c, s, token, id, text) && HoldsAlone(c, s, token, id)
    requires GoodText(c, text, token)
    requires Call(s, p) != Idle && Call(s, p).token == token
    ensures forall call, s' :: CallMoves(c, s, call, p, s') && !call.Fault? && !call.Start? ==>
              Remaining(Call(s', p)) < Remaining(Call(s, p)) && (Call(s', p).InCall() || Call(s', p).Accepted?)
  {
    forall call, s' | CallMoves(c, s, call, p, s') && !call.Fault? && !call.Start?
      ensures Remaining(Call(s', p)) < Remaining(Call(s, p)) && (Call(s', p).InCall() || Call(s', p).Accepted?)
    {
      CallStaysOnTrack(c, s, call, p, s', token, id, text);
      hide CallMoves, OnTrack, AllOnTrack, Inv, HoldsAlone, ParseStored;
      StepApproaches(c, s, call, p, s', token, id, text);
    }
  }

  lemma StepApproaches(
      c: Crypto, s: State, call: CallStep, p: Proc, s': State, token: Text, id: RowId, text: Text)
    requires CallMoves(c, s, call, p, s') && !call.Fault? && !call.Start?
    requires Call(s, p) != Idle && Call(s, p).token == token && OnTrack(c, s', token, id, text, Call(s', p))
    ensures Remaining(Call(s', p)) < Remaining(Call(s, p)) && (Call(s', p).InCall() || Call(s', p).Accepted?)
  {
    hide EncodeVerifier, ParseStored, ValidToken;
  }

  lemma StaysSettled(c: Crypto, run: seq<State>, steps: seq<Step>, token: Text, id: RowId, text: Text, k: nat)
    requires IsRun(c, run, steps) && Undisturbed(c, run, token, id) && k < |run|
    requires token in c.tokens && ValidToken(c.checksum, token)
    requires GoodText(c, text, token)
    requires id in run[0].rows && run[0].rows[id].keyHash == text
    ensures forall j :: k <= j < |run| && Settled(c, run[k], token, id) ==> Settled(c, run[j], token, id)
  {
    hide IsRun, Undisturbed, Settled, OnTrack, ParseStored, ValidToken;
    StaysOnTrack(c, run, steps, token, id, text, k);
    forall j | k <= j < |run| && Settled(c, run[k], token, id) ensures Settled(c, run[j], token, id) {
      StaysOnTrack(c, run, steps, token, id, text, j);
    }
  }

  lemma NextStepExists(c: Crypto, s: State, p: Proc, id: RowId)
    requires Call(s, p).InCall() && ValidToken(c.checksum, Call(s, p).token) && Selects(c, s, Call(s, p).token, id)
    ensures exists call, s' :: CallMoves(c, s, call, p, s') && !call.Fault?
  {
    var call := match Call(s, p)
      case Started(_) => Load(id)
      case Loaded(_, _, _, _) => RunArgon
      case Verified(_, _, _, _) => Swap
      case Missed(_, _, _) => Reread
      case _ => Identify;
    assert Enabled(c, s, call, Call(s, p));
    var s' := Move(s, p, NextPc(c, s, call, Call(s, p))).(rows := NextRows(c, s, call, Call(s, p)));
    assert CallMoves(c, s, call, p, s');
  }

  // ---- A good key gets in ----

  lemma Append(c: Crypto, run: seq<State>, steps: seq<Step>, p: Proc, call: CallStep) returns (run': seq<State>, steps': seq<Step>)
    requires IsRun(c, run, steps) && |run| == |steps| + 1 && Enabled(c, run[|steps|], call, Call(run[|steps|], p))
    ensures IsRun(c, run', steps') && |run'| == |steps'| + 1 && run <= run' && steps <= steps'
    ensures forall i :: |steps| <= i < |steps'| ==> steps'[i] == ByCall(p, call)
    ensures var s, s' := run[|steps|], run'[|steps'|];
            && Call(s', p) == NextPc(c, s, call, Call(s, p)) && s'.rows == NextRows(c, s, call, Call(s, p))
            && s'.users == s.users && s'.now == s.now
  {
    hide WorldMoves, NextPc, NextRows, Enabled, Faithful;
    var s := run[|steps|];
    var s' := Move(s, p, NextPc(c, s, call, Call(s, p))).(rows := NextRows(c, s, call, Call(s, p)));
    run', steps' := run + [s'], steps + [ByCall(p, call)];
  }

  /** The state a good key needs: a row of its own, unrevoked and unexpired, with a text that accepts it, of an active account if of any. */
  ghost predicate GoodKey(c: Crypto, s: State, token: Text, id: RowId) {
    && id in s.rows
    && var row := s.rows[id];
       && row.keyId == Some(c.keyId(token)) && !row.revoked
       && (row.expires == Never || (row.expires.At? && row.expires.time > s.now))
       && GoodText(c, row.keyHash, token)
       && forall u :: row.owner == Some(u) ==> ActiveAccount(s.users, u)
  }

  lemma GoodKeyIsSelected(c: Crypto, s: State, token: Text, id: RowId)
    requires GoodKey(c, s, token, id)
    ensures Selects(c, s, token, id)
    ensures s.rows[id].owner == None || CredentialLive(s.users, s.rows[id].owner.value)
  {
    if s.rows[id].owner.Some? { LiveIsActive(s.users, s.rows[id].owner.value); }
  }

  /** A legacy row is migrated on the way, any other row left as it is. */
  lemma GoodKeyIsMatched(c: Crypto, run: seq<State>, steps: seq<Step>, p: Proc, token: Text, id: RowId)
    returns (run': seq<State>, steps': seq<Step>)
    requires IsRun(c, run, steps) && |run| == |steps| + 1 && Call(run[|steps|], p) == Started(token)
    requires ValidToken(c.checksum, token) && GoodKey(c, run[|steps|], token, id)
    ensures IsRun(c, run', steps') && |run'| == |steps'| + 1 && run <= run' && steps <= steps'
    ensures var s, s' := run[|steps|], run'[|steps'|];
            && Call(s', p) == Matched(token, id, s.rows[id].owner) && s'.users == s.users && s'.now == s.now
            && s'.rows == s.rows[id := s.rows[id].(keyHash := EncodeVerifier(c.sha(token)))]
  {
    var s := run[|steps|];
    var row := s.rows[id];
    LoadsGoodKey(c, s, token, id);
    hide IsRun, EncodeVerifier, ParseStored, ValidToken, Selects, GoodKey, NextPc, NextRows;
    run', steps' := Append(c, run, steps, p, Load(id));
    if row.keyHash == EncodeVerifier(c.sha(token)) {
      assert s.rows == s.rows[id := row.(keyHash := EncodeVerifier(c.sha(token)))];
    } else {
      MigratesGoodKey(c, run'[|steps'|], token, id);
      run', steps' := Append(c, run', steps', p, RunArgon);
      run', steps' := Append(c, run', steps', p, Swap);
    }
  }

  lemma LoadsGoodKey(c: Crypto, s: State, token: Text, id: RowId)
    requires ValidToken(c.checksum, token) && GoodKey(c, s, token, id)
    ensures Enabled(c, s, Load(id), Started(token)) && NextRows(c, s, Load(id), Started(token)) == s.rows
    ensures var row := s.rows[id];
            NextPc(c, s, Load(id), Started(token)) ==
            if row.keyHash == EncodeVerifier(c.sha(token)) then Matched(token, id, row.owner)
            else Loaded(token, id, row.keyHash, row.owner)
  {
    GoodKeyIsSelected(c, s, token, id);
    StoredVerifierIsSha256(c.sha(token));
    hide EncodeVerifier, ParseStored, ValidToken, Selects;
  }

  lemma MigratesGoodKey(c: Crypto, s: State, token: Text, id: RowId)
    requires GoodKey(c, s, token, id) && s.rows[id].keyHash != EncodeVerifier(c.sha(token))
    ensures var row := s.rows[id];
            var loaded, verified := Loaded(token, id, row.keyHash, row.owner), Verified(token, id, row.keyHash, row.owner);
            && Enabled(c, s, RunArgon, loaded) && NextPc(c, s, RunArgon, loaded) == verified
            && NextRows(c, s, RunArgon, loaded) == s.rows
            && Enabled(c, s, Swap, verified) && NextPc(c, s, Swap, verified) == Matched(token, id, row.owner)
            && NextRows(c, s, Swap, verified) == s.rows[id := row.(keyHash := EncodeVerifier(c.sha(token)))]
  {
    hide EncodeVerifier, ParseStored;
  }

  /**
    From every state of every run, a request for a good key that goes on alone is
    accepted, for that row and its owner; of the tables at most this row's verifier
    has changed, to the SHA-256 one of the token.
  */
  lemma GoodKeyIsAccepted(c: Crypto, run: seq<State>, steps: seq<Step>, p: Proc, token: Text, id: RowId)
    returns (run': seq<State>, steps': seq<Step>)
    requires IsRun(c, run, steps) && |run| == |steps| + 1 && !Call(run[|steps|], p).InCall()
    requires token in c.tokens && ValidToken(c.checksum, token) && GoodKey(c, run[|steps|], token, id)
    ensures IsRun(c, run', steps') && |run'| == |steps'| + 1 && run <= run' && steps <= steps'
    ensures var s, s' := run[|steps|], run'[|steps'|];
            && Call(s', p) == Accepted(token, id, s.rows[id].owner) && s'.users == s.users && s'.now == s.now
            && s'.rows == s.rows[id := s.rows[id].(keyHash := EncodeVerifier(c.sha(token)))]
  {
    var s := run[|steps|];
    GoodKeyIsSelected(c, s, token, id);
    hide IsRun, EncodeVerifier, ParseStored, ValidToken, Selects, CredentialLive;
    run', steps' := Append(c, run, steps, p, Start(token));
    run', steps' := GoodKeyIsMatched(c, run', steps', p, token, id);
    run', steps' := Append(c, run', steps', p, Identify);
  }

  // ---- What else may happen ----

  /** No request is ever stuck: it has a step of its own, and at any of them the database may fail instead. */
  lemma NoRequestIsStuck(c: Crypto, s: State, p: Proc)
    requires Call(s, p).InCall()
    ensures exists call, s' :: CallMoves(c, s, call, p, s') && !call.Fault? && !call.Start?
    ensures exists call, s' :: CallMoves(c, s, call, p, s')
              && s' == s.(calls := s.calls[p := Rejected(Call(s, p).token, Database)])
  {
    var pc := Call(s, p);
    if pc.Started? {
      if !ValidToken(c.checksum, pc.token) {
        MovesBy(c, s, p, CheckFails);
      } else if id :| Selects(c, s, pc.token, id) {
        MovesBy(c, s, p, Load(id));
      } else {
        MovesBy(c, s, p, LoadNothing);
      }
    } else {
      MovesBy(c, s, p, if pc.Loaded? then RunArgon else if pc.Verified? then Swap else if pc.Missed? then Reread else Identify);
    }
    MovesBy(c, s, p, Fault);
  }

  lemma MovesBy(c: Crypto, s: State, p: Proc, call: CallStep)
    requires Enabled(c, s, call, Call(s, p))
    ensures CallMoves(c, s, call, p, Move(s, p, NextPc(c, s, call, Call(s, p))).(rows := NextRows(c, s, call, Call(s, p))))
  {
  }

  /** Rows of any ids may be revoked, or deleted. */
  lemma RowsMayGo(c: Crypto, s: State, ids: set<RowId>)
    ensures exists s' :: WorldMoves(c, s, RevokeRows(ids), s') && s' == s.(rows := s'.rows) && s'.rows.Keys == s.rows.Keys
              && forall i :: i in s.rows ==> s'.rows[i] == s.rows[i].(revoked := s.rows[i].revoked || i in ids)
    ensures exists s' :: WorldMoves(c, s, DeleteRows(ids), s') && s' == s.(rows := s'.rows)
              && (forall i :: i in s'.rows <==> i in s.rows && i !in ids) && forall i :: i in s'.rows ==> s'.rows[i] == s.rows[i]
  {
    var revoked := s.(rows := map i | i in s.rows :: if i in ids then s.rows[i].(revoked := true) else s.rows[i]);
    assert WorldMoves(c, s, RevokeRows(ids), revoked) && WorldMoves(c, s, DeleteRows(ids), s.(rows := s.rows - ids));
  }

  /** The active rows of a name may be given to anyone, and accounts and clock may change at will. */
  lemma OwnersMayChange(c: Crypto, s: State, name: string, owner: UserId, users: Users, now: int)
    ensures exists s' :: WorldMoves(c, s, Assign(name, owner), s') && s' == s.(rows := s'.rows) && s'.rows.Keys == s.rows.Keys
              && forall i :: i in s.rows ==>
                   s'.rows[i] == if s.rows[i].name == name && !s.rows[i].revoked then s.rows[i].(owner := Some(owner)) else s.rows[i]
    ensures WorldMoves(c, s, SetUsers(users), s.(users := users)) && WorldMoves(c, s, SetClock(now), s.(now := now))
  {
    var given := s.(rows := map i | i in s.rows :: if s.rows[i].name == name && !s.rows[i].revoked
                                                   then s.rows[i].(owner := Some(owner)) else s.rows[i]);
    assert WorldMoves(c, s, Assign(name, owner), given);
  }

  /** A key may be made under a free name, and one without expiry or with a later one rotated, to its owner or another. */
  lemma KeysMayBeMade(
      c: Crypto, s: State, name: string, prepared: Prepared, expires: Expiry, owner: Option<UserId>, heir: UserId, id: RowId, prev: RowId)
    requires Genuine(c, prepared) && id !in s.rows
    ensures (forall i :: i in s.rows ==> s.rows[i].name != name) ==>
              exists s' :: WorldMoves(c, s, Operate(Create(name, prepared, expires, owner), id, true), s')
                && id in s'.rows && s'.rows[id].owner == owner && s'.rows[id].expires == expires
                && forall i :: i in s.rows ==> i in s'.rows && s'.rows[i] == s.rows[i]
    ensures prev in s.rows && s.rows[prev].name == name && s.rows[prev].expires == Never ==>
              && (exists s' :: WorldMoves(c, s, Operate(Rotate(name, prepared), id, true), s') && id in s'.rows)
              && (exists s' :: WorldMoves(c, s, Rebind(name, prepared, heir, id), s') && id in s'.rows && s'.rows[id].owner == Some(heir))
  {
    if forall i :: i in s.rows ==> s.rows[i].name != name {
      assert InsertRefusal(s.rows, name, owner) == None;
      assert WithoutTombstone(s.rows, name) == s.rows;
      assert WorldMoves(c, s, Operate(Create(name, prepared, expires, owner), id, true),
                        s.(rows := s.rows[id := prepared.AsRow(name, expires, owner)]));
    }
    if prev in s.rows && s.rows[prev].name == name && s.rows[prev].expires == Never {
      assert Rotates(s.rows, name, s.now, prev);
      assert WorldMoves(c, s, Operate(Rotate(name, prepared), id, true),
                        s.(rows := WithoutName(s.rows, name)[id := prepared.AsRow(name, Never, s.rows[prev].owner)]));
      assert WorldMoves(c, s, Rebind(name, prepared, heir, id),
                        s.(rows := WithoutName(s.rows, name)[id := prepared.AsRow(name, Never, Some(heir))]));
    }
  }
}
