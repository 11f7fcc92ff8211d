/** The `users` rows that authentication and authorization read. */
module Accounts {
  import opened Common

  type UserId = int

  datatype User = User(active: bool, isBot: bool, owner: Option<UserId>, admin: bool)

  type Users = map<UserId, User>

  /** `credential_is_live`: a bot also needs its owner, if it still has one, to be active. */
  predicate CredentialLive(users: Users, u: UserId) {
    && u in users && users[u].active
    && (users[u].isBot && users[u].owner.Some? && users[u].owner.value in users ==> users[users[u].owner.value].active)
  }

  predicate OwnsBot(users: Users, u: UserId, bot: UserId) {
    bot in users && users[bot].isBot && users[bot].owner == Some(u)
  }

  /** The account is there and active, and so is the owner of a bot as far as it exists. */
  ghost predicate ActiveAccount(users: Users, u: UserId) {
    && u in users && users[u].active
    && forall owner :: users[u].isBot && users[u].owner == Some(owner) && owner in users ==> users[owner].active
  }

  lemma LiveIsActive(users: Users, u: UserId)
    ensures CredentialLive(users, u) <==> ActiveAccount(users, u)
  {
    if u in users && users[u].owner.Some? {
      var owner := users[u].owner.value;
      assert owner in users || owner !in users;
      forall o | users[u].isBot && users[u].owner == Some(o) && o in users ensures users[o].active <==> users[owner].active {}
    }
  }
}
