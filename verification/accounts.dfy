/**
 * The persisted data of the account layer: user documents keyed by id, and
 * verification tokens.  A store is the users collection seen as a map from
 * document id to document; every operation of the model is a transition from
 * one store to the next.
 */
module Accounts {
  import opened Wrappers

  /** A document id (a database object id, kept opaque). */
  type Id = nat

  /** A salted password hash, as produced by the hashing library. */
  type Hash = string

  /**
   * A user document.  Fields the document may lack (a document created by an
   * upsert carries nothing but its id and the edge set that was written) are
   * optional; an absent array field reads as the empty set.
   */
  datatype Account = Account(
    firstName: Option<string>,
    lastName: Option<string>,
    userName: Option<string>,
    email: Option<string>,
    password: Option<Hash>,
    isVerified: bool,
    joined: Option<int>,
    following: set<Id>,
    followers: set<Id>)

  /** The users collection. */
  type Store = map<Id, Account>

  /** A verification token document: the owning user's id and the random token text. */
  datatype Token = Token(userId: Id, token: string)

  /** The document an upsert starts from: nothing but the id. */
  const Blank := Account(None, None, None, None, None, false, None, {}, {})

  /** The document an upserting update of `id` applies to: the stored one, or a fresh blank one. */
  function Doc(s: Store, id: Id): (a: Account)
    ensures id in s ==> a == s[id]
    ensures id !in s ==>
      && a.firstName.None? && a.lastName.None? && a.userName.None? && a.email.None?
      && a.password.None? && !a.isVerified && a.joined.None?
      && a.following == {} && a.followers == {}
  {
    if id in s then s[id] else Blank
  }

  /** Two documents agree on everything except their follow edges. */
  predicate SameProfile(a: Account, b: Account)
  {
    && a.firstName == b.firstName
    && a.lastName == b.lastName
    && a.userName == b.userName
    && a.email == b.email
    && a.password == b.password
    && a.isVerified == b.isVerified
    && a.joined == b.joined
  }

  /**
   * The follow graph is symmetric and closed: `b` is in `a.following` exactly
   * when `a` is in `b.followers`, and every edge names a document that exists.
   */
  ghost predicate Consistent(s: Store)
  {
    && (forall a, b :: a in s && b in s[a].following ==> b in s && a in s[b].followers)
    && (forall a, b :: a in s && b in s[a].followers ==> b in s && a in s[b].following)
  }

  /** No two documents share a user name or an email address. */
  ghost predicate Unique(s: Store)
  {
    forall a, b :: a in s && b in s && a != b ==>
      && (s[a].userName.Some? ==> s[a].userName != s[b].userName)
      && (s[a].email.Some? ==> s[a].email != s[b].email)
  }
}
