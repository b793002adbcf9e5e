/**
 * Changing a password (services/UserService.js, changePassword).  The
 * attempted password is compared with the stored hash; on a match the new
 * password is hashed with a fresh salt and the document saved, otherwise the
 * call is rejected.  Comparing and hashing belong to the hashing library and
 * the salt to its random source, so all three are parameters.
 */
module Credentials {
  import opened Wrappers
  import opened Accounts

  /** The one way a password change is refused. */
  datatype PasswordError = IncorrectPassword

  /**
   * `hash` and `compare` agree: a password always matches a hash made from
   * it, whatever the salt.
   */
  ghost predicate HashingSound(hash: (string, string) -> Hash, compare: (string, Option<Hash>) -> bool)
  {
    forall p, salt :: compare(p, Some(hash(p, salt)))
  }

  /** User `id` changes their password from `attempted` to `newPassword`. */
  function ChangePassword(
    s: Store, id: Id, attempted: string, newPassword: string, salt: string,
    compare: (string, Option<Hash>) -> bool, hash: (string, string) -> Hash): (r: Result<Store, PasswordError>)
    requires id in s
    ensures r.Failure? <==> !compare(attempted, s[id].password)
    ensures r.Success? ==>
      && r.value.Keys == s.Keys
      && r.value[id].password == Some(hash(newPassword, salt))
      && r.value[id] == s[id].(password := r.value[id].password)
      && (forall x :: x in s && x != id ==> r.value[x] == s[x])
  {
    if compare(attempted, s[id].password) then
      var user := s[id];
      Success(s[id := user.(password := Some(hash(newPassword, salt)))])
    else
      Failure(IncorrectPassword)
  }

  /**
   * After a successful change, the new password is the one that
   * authenticates: changing it again with the new password as the attempt is
   * accepted.
   */
  lemma NewPasswordAuthenticates(
    s: Store, id: Id, attempted: string, newPassword: string, salt: string,
    next: string, salt2: string,
    compare: (string, Option<Hash>) -> bool, hash: (string, string) -> Hash)
    requires id in s
    requires HashingSound(hash, compare)
    requires ChangePassword(s, id, attempted, newPassword, salt, compare, hash).Success?
    ensures var s' := ChangePassword(s, id, attempted, newPassword, salt, compare, hash).value;
      ChangePassword(s', id, newPassword, next, salt2, compare, hash).Success?
  {
    var s' := ChangePassword(s, id, attempted, newPassword, salt, compare, hash).value;
    assert compare(newPassword, Some(hash(newPassword, salt)));
  }

  /** A password change touches neither the follow graph nor any user name or email. */
  lemma {:induction false} ChangePasswordPreservesInvariants(
    s: Store, id: Id, attempted: string, newPassword: string, salt: string,
    compare: (string, Option<Hash>) -> bool, hash: (string, string) -> Hash)
    requires id in s
    requires Consistent(s) && Unique(s)
    ensures var r := ChangePassword(s, id, attempted, newPassword, salt, compare, hash);
      r.Success? ==> Consistent(r.value) && Unique(r.value)
  {
    var r := ChangePassword(s, id, attempted, newPassword, salt, compare, hash);
    if r.Success? {
      var t := r.value;
      assert forall x :: x in t ==> t[x].following == s[x].following && t[x].followers == s[x].followers;
      assert forall x :: x in t ==> t[x].userName == s[x].userName && t[x].email == s[x].email;
    }
  }
}
