/**
 * Registering a user (server/controllers/UserController.js, createUser, with
 * services/UserService.js, saveUser).  The new document is saved with its
 * password hashed; a save that collides with an existing id, user name or
 * email fails with one generic error and issues nothing.  On success exactly
 * one verification token is saved for the new user, whose text is the
 * lower-case hexadecimal form of 16 random bytes.
 */
module Registration {
  import opened Wrappers
  import opened Accounts
  import Verification

  /** An octet, as produced by the random source. */
  newtype byte = x: int | 0 <= x < 256

  /** A lower-case hexadecimal digit. */
  predicate IsHexDigit(c: char)
  {
    '0' <= c <= '9' || 'a' <= c <= 'f'
  }

  /** Every character is a lower-case hexadecimal digit. */
  predicate IsLowerHex(s: string)
  {
    forall k :: 0 <= k < |s| ==> IsHexDigit(s[k])
  }

  /** The lower-case hexadecimal digit with value `n`. */
  function HexDigit(n: int): (c: char)
    requires 0 <= n < 16
    ensures IsHexDigit(c)
  {
    if n < 10 then ('0' as int + n) as char else ('a' as int + n - 10) as char
  }

  /** The value of one lower-case hexadecimal digit, the inverse of `HexDigit`. */
  function DigitValue(c: char): (r: Option<int>)
    ensures r.Some? <==> IsHexDigit(c)
    ensures r.Some? ==> 0 <= r.value < 16 && HexDigit(r.value) == c
    ensures forall n :: 0 <= n < 16 && c == HexDigit(n) ==> r == Some(n)
  {
    if '0' <= c <= '9' then Some(c as int - '0' as int)
    else if 'a' <= c <= 'f' then Some(c as int - 'a' as int + 10)
    else None
  }

  /** Bytes as text, two lower-case hexadecimal digits per byte, high digit first. */
  function Hex(bytes: seq<byte>): (r: string)
    ensures |r| == 2 * |bytes|
    ensures IsLowerHex(r)
  {
    if |bytes| == 0 then []
    else
      var b := bytes[0] as int;
      [HexDigit(b / 16), HexDigit(b % 16)] + Hex(bytes[1..])
  }

  /** Reads hexadecimal text back into bytes; fails on odd length or a non-digit. */
  function Unhex(s: string): Option<seq<byte>>
  {
    if |s| == 0 then Some([])
    else if |s| == 1 then None
    else
      match (DigitValue(s[0]), DigitValue(s[1]), Unhex(s[2..]))
      case (Some(hi), Some(lo), Some(rest)) => Some([(hi * 16 + lo) as byte] + rest)
      case _ => None
  }

  /** The hexadecimal text determines the bytes: reading it back gives them again. */
  lemma {:induction false} UnhexHex(bytes: seq<byte>)
    ensures Unhex(Hex(bytes)) == Some(bytes)
  {
    if |bytes| > 0 {
      var b := bytes[0] as int;
      var h := Hex(bytes);
      assert h[2..] == Hex(bytes[1..]);
      UnhexHex(bytes[1..]);
      assert DigitValue(h[0]) == Some(b / 16);
      assert DigitValue(h[1]) == Some(b % 16);
      assert (b / 16 * 16 + b % 16) as byte == bytes[0];
      assert bytes == [bytes[0]] + bytes[1..];
    }
  }

  /** Distinct random byte strings give distinct token texts. */
  lemma {:induction false} HexInjective(a: seq<byte>, b: seq<byte>)
    requires Hex(a) == Hex(b)
    ensures a == b
  {
    UnhexHex(a);
    UnhexHex(b);
  }

  /** The fields of the registration form. */
  datatype Form = Form(firstName: string, lastName: string, userName: string, email: string, password: string)

  /** The one, generic, way a registration is refused: it does not say which field collided. */
  datatype CreateError = AlreadyExists

  /** The collections after a successful registration. */
  datatype Registered = Registered(store: Store, tokens: seq<Token>)

  /** Saving a document with id `id` from `form` would break a unique index. */
  predicate Taken(s: Store, id: Id, form: Form)
  {
    || id in s
    || exists x :: x in s && (s[x].userName == Some(form.userName) || s[x].email == Some(form.email))
  }

  /** The number of random bytes a token is made from. */
  const TokenBytes := 16

  /**
   * Registers a user.  The new document's id, its join time, the salt and
   * the token's random bytes are inputs; `hash` is the hashing library.
   */
  function CreateUser(
    s: Store, tokens: seq<Token>, id: Id, form: Form, joined: int,
    salt: string, hash: (string, string) -> Hash, random: seq<byte>): (r: Result<Registered, CreateError>)
    requires |random| == TokenBytes
    ensures r.Failure? <==> Taken(s, id, form)
    ensures r.Success? ==> r.value.store.Keys == s.Keys + {id}
    ensures r.Success? ==>
      var user := r.value.store[id];
      && (forall x :: x in s ==> r.value.store[x] == s[x])
      && user.firstName == Some(form.firstName) && user.lastName == Some(form.lastName)
      && user.userName == Some(form.userName) && user.email == Some(form.email)
      && user.password == Some(hash(form.password, salt))
      && !user.isVerified && user.joined == Some(joined)
      && user.following == {} && user.followers == {}
    ensures r.Success? ==>
      && |r.value.tokens| == |tokens| + 1
      && r.value.tokens[..|tokens|] == tokens
      && r.value.tokens[|tokens|].userId == id
      && |r.value.tokens[|tokens|].token| == 32
      && IsLowerHex(r.value.tokens[|tokens|].token)
      && Unhex(r.value.tokens[|tokens|].token) == Some(random)
  {
    if Taken(s, id, form) then Failure(AlreadyExists)
    else
      var user := Account(
        Some(form.firstName), Some(form.lastName), Some(form.userName), Some(form.email),
        Some(hash(form.password, salt)), false, Some(joined), {}, {});
      var token := Token(id, Hex(random));
      UnhexHex(random);
      Success(Registered(s[id := user], tokens + [token]))
  }

  /** Registration keeps the follow graph symmetric and closed and the names and emails unique. */
  lemma {:induction false} CreatePreservesInvariants(
    s: Store, tokens: seq<Token>, id: Id, form: Form, joined: int,
    salt: string, hash: (string, string) -> Hash, random: seq<byte>)
    requires |random| == TokenBytes
    requires Consistent(s) && Unique(s)
    ensures var r := CreateUser(s, tokens, id, form, joined, salt, hash, random);
      r.Success? ==> Consistent(r.value.store) && Unique(r.value.store)
  {
    var r := CreateUser(s, tokens, id, form, joined, salt, hash, random);
    if r.Success? {
      var t := r.value.store;
      forall a, b | a in t && b in t[a].following
        ensures b in t && a in t[b].followers
      {
        assert a in s && b in s[a].following;
      }
      forall a, b | a in t && b in t[a].followers
        ensures b in t && a in t[b].following
      {
        assert a in s && b in s[a].followers;
      }
      forall a, b | a in t && b in t && a != b
        ensures t[a].userName.Some? ==> t[a].userName != t[b].userName
        ensures t[a].email.Some? ==> t[a].email != t[b].email
      {
        if a == id {
          assert b in s;
        } else if b == id {
          assert a in s;
        }
      }
    }
  }

  /**
   * Registration followed by confirmation: the new user registers, the token
   * just issued confirms them, and confirming again with the same token is
   * refused as already verified.  The random bytes must not repeat the text
   * of an earlier token.
   */
  lemma {:induction false} RegisterThenConfirm(
    s: Store, tokens: seq<Token>, id: Id, form: Form, joined: int,
    salt: string, hash: (string, string) -> Hash, random: seq<byte>)
    requires |random| == TokenBytes
    requires !Taken(s, id, form)
    requires forall k :: 0 <= k < |tokens| ==> tokens[k].token != Hex(random)
    ensures var r := CreateUser(s, tokens, id, form, joined, salt, hash, random);
      && r.Success?
      && var c := Verification.ConfirmUser(r.value.store, r.value.tokens, Hex(random), form.email);
      && c.Success?
      && c.value[id].isVerified
      && Verification.ConfirmUser(c.value, r.value.tokens, Hex(random), form.email)
         == Failure(Verification.AlreadyVerified)
  {
    var r := CreateUser(s, tokens, id, form, joined, salt, hash, random);
    var ts := r.value.tokens;
    var text := Hex(random);
    assert ts == tokens + [Token(id, text)];
    FindFreshToken(tokens, Token(id, text));
    var c := Verification.ConfirmUser(r.value.store, ts, text, form.email);
    assert c.Success?;
    Verification.ReplayIsAlreadyVerified(r.value.store, ts, text, form.email);
  }

  /** A token appended after tokens with other texts is the one found by its text. */
  lemma {:induction false} FindFreshToken(tokens: seq<Token>, t: Token)
    requires forall k :: 0 <= k < |tokens| ==> tokens[k].token != t.token
    ensures Verification.FindToken(tokens + [t], t.token) == Some(t)
  {
    if |tokens| > 0 {
      assert (tokens + [t])[1..] == tokens[1..] + [t];
      FindFreshToken(tokens[1..], t);
    }
  }

  /** Once registered, a user name or email cannot be registered again, under any id. */
  lemma {:induction false} ReRegistrationRejected(
    s: Store, tokens: seq<Token>, id: Id, form: Form, joined: int,
    salt: string, hash: (string, string) -> Hash, random: seq<byte>,
    id2: Id, form2: Form, joined2: int, salt2: string, random2: seq<byte>)
    requires |random| == TokenBytes && |random2| == TokenBytes
    requires CreateUser(s, tokens, id, form, joined, salt, hash, random).Success?
    requires form2.userName == form.userName || form2.email == form.email
    ensures var r := CreateUser(s, tokens, id, form, joined, salt, hash, random).value;
      CreateUser(r.store, r.tokens, id2, form2, joined2, salt2, hash, random2) == Failure(AlreadyExists)
  {
    var r := CreateUser(s, tokens, id, form, joined, salt, hash, random).value;
    assert id in r.store;
    assert Taken(r.store, id2, form2);
  }
}
