/**
 * Confirming an account's email address
 * (server/controllers/UserController.js, confirmUser).  The token is looked
 * up by its text; the user is looked up by the token's user id together with
 * the supplied email; an already verified user is refused; otherwise the
 * user's `isVerified` becomes true.  The token collection is only read: a
 * token is never consumed, so it keeps pointing at its user after a success.
 */
module Verification {
  import opened Wrappers
  import opened Accounts

  /** The ways a confirmation is refused. */
  datatype ConfirmError =
    | TokenNotFound     // no token has the given text
    | UserNotFound      // no user has both the token's user id and the given email
    | AlreadyVerified   // the user was verified before

  /** The first token whose text is `text`, as a single-document lookup returns it. */
  function FindToken(tokens: seq<Token>, text: string): (r: Option<Token>)
    ensures r.None? <==> forall k :: 0 <= k < |tokens| ==> tokens[k].token != text
    ensures r.Some? ==> r.value.token == text && r.value in tokens
  {
    if |tokens| == 0 then None
    else if tokens[0].token == text then Some(tokens[0])
    else FindToken(tokens[1..], text)
  }

  /** The user with id `id` and email `email`, if there is one. */
  function FindUser(s: Store, id: Id, email: string): (r: Option<Account>)
    ensures r.Some? <==> id in s && s[id].email == Some(email)
    ensures r.Some? ==> r.value == s[id]
  {
    if id in s && s[id].email == Some(email) then Some(s[id]) else None
  }

  /** Confirms the account that the token with text `text` belongs to, if its email is `email`. */
  function ConfirmUser(s: Store, tokens: seq<Token>, text: string, email: string): (r: Result<Store, ConfirmError>)
    ensures r == Failure(TokenNotFound) <==> forall k :: 0 <= k < |tokens| ==> tokens[k].token != text
    ensures r == Failure(UserNotFound) <==>
      exists t :: FindToken(tokens, text) == Some(t) && (t.userId !in s || s[t.userId].email != Some(email))
    ensures r == Failure(AlreadyVerified) <==>
      exists t :: FindToken(tokens, text) == Some(t) && t.userId in s
        && s[t.userId].email == Some(email) && s[t.userId].isVerified
    ensures r.Success? ==>
      exists t :: FindToken(tokens, text) == Some(t) && t.userId in s
        && s[t.userId].email == Some(email) && !s[t.userId].isVerified
        && r.value == s[t.userId := s[t.userId].(isVerified := true)]
  {
    match FindToken(tokens, text)
    case None => Failure(TokenNotFound)
    case Some(t) =>
      match FindUser(s, t.userId, email)
      case None => Failure(UserNotFound)
      case Some(user) =>
        if user.isVerified then Failure(AlreadyVerified)
        else Success(s[t.userId := user.(isVerified := true)])
  }

  /**
   * A successful confirmation verifies exactly one user who was not verified
   * before, keeps every verified user verified, and changes nothing else.
   */
  lemma {:induction false} ConfirmVerifiesExactlyOne(s: Store, tokens: seq<Token>, text: string, email: string)
    requires ConfirmUser(s, tokens, text, email).Success?
    ensures var s' := ConfirmUser(s, tokens, text, email).value;
      && s'.Keys == s.Keys
      && (exists id :: id in s && !s[id].isVerified && s'[id].isVerified
            && s'[id] == s[id].(isVerified := true)
            && forall x :: x in s && x != id ==> s'[x] == s[x])
      && forall x :: x in s && s[x].isVerified ==> s'[x].isVerified
  {
    var t := FindToken(tokens, text).value;
    var s' := ConfirmUser(s, tokens, text, email).value;
    assert s' == s[t.userId := s[t.userId].(isVerified := true)];
    assert t.userId in s && !s[t.userId].isVerified && s'[t.userId].isVerified;
  }

  /**
   * The token is not consumed: confirming again with the same token and email
   * after a success is refused as already verified.
   */
  lemma {:induction false} ReplayIsAlreadyVerified(s: Store, tokens: seq<Token>, text: string, email: string)
    requires ConfirmUser(s, tokens, text, email).Success?
    ensures ConfirmUser(ConfirmUser(s, tokens, text, email).value, tokens, text, email) == Failure(AlreadyVerified)
  {
    var t := FindToken(tokens, text).value;
    var s' := ConfirmUser(s, tokens, text, email).value;
    assert s' == s[t.userId := s[t.userId].(isVerified := true)];
    assert FindUser(s', t.userId, email) == Some(s'[t.userId]);
  }

  /** Confirmation touches neither the follow graph nor any user name or email. */
  lemma {:induction false} ConfirmPreservesInvariants(s: Store, tokens: seq<Token>, text: string, email: string)
    requires Consistent(s) && Unique(s)
    ensures var r := ConfirmUser(s, tokens, text, email);
      r.Success? ==> Consistent(r.value) && Unique(r.value)
  {
    var r := ConfirmUser(s, tokens, text, email);
    if r.Success? {
      var t := FindToken(tokens, text).value;
      var s' := r.value;
      assert s' == s[t.userId := s[t.userId].(isVerified := true)];
      assert forall x :: x in s' ==> s'[x].following == s[x].following && s'[x].followers == s[x].followers;
      assert forall x :: x in s' ==> s'[x].userName == s[x].userName && s'[x].email == s[x].email;
    }
  }
}
