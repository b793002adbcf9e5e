# Account layer of FirstCinema, modelled in Dafny

This project models the user-account layer of FirstCinema: the user service
(`services/UserService.js`) and the user controller
(`server/controllers/UserController.js`). The model is a set of pure
transition functions over an abstract database:

- The users collection is a `Store = map<Id, Account>`. Each `Account` holds
  its profile fields, the `isVerified` flag, the `joined` date, and the two
  edge sets `following` and `followers` as `set<Id>`.
- The tokens collection is a `seq<Token>`. Each token pairs a user id with the
  token text.

Modules:

- `Wrappers`: `Option` and `Result`.
- `Accounts`: the documents and the two whole-store invariants.
  - `Consistent`: the follow graph is symmetric, and every edge names an
    existing document.
  - `Unique`: no two documents share a user name or an email. Documents
    without one are exempt, as under a sparse unique index.
- `FollowGraph`: `followUser` and `unfollowUser`. Each call is two upserting
  updates. `$addToSet` is set union and `$pull` is set difference, and the
  upsert creates a missing document.
- `Paging`: the service's `pagedUsers` and `count`, and the controller's
  `pagedUsers`. The query sorts by join date, skips `perPage * page - perPage`
  documents and takes at most `limit`. The controller clamps the page number
  to at least 1 and reports `ceil(count / 15)` pages.
- `Credentials`: `changePassword`.
- `Verification`: the controller's `confirmUser`. The token is looked up
  first, then the user with both the token's user id and the given email, then
  the already-verified check. On success `isVerified` becomes true.
- `Registration`: the controller's `createUser` with the service's `saveUser`.
  A collision on a unique field gives one generic error. On success exactly
  one token is issued: the lower-case hex text of 16 random bytes.

Inputs that stand for I/O and randomness:

- Password hashing and comparison are parameters: `hash(password, salt)` and
  `compare(attempt, storedHash)`.
- The salt, the new document's id, its join time and the 16 random token
  bytes are also parameters.

Three behaviours of the code are kept as they are, though an account service might be expected to refuse them:

- Following yourself is not refused. `SelfFollowIsRecorded` shows that the
  edge is stored.
- Following or unfollowing a missing user does not fail. The upsert creates
  the document.
- A confirmation never consumes its token. A replay after a success is refused
  only because the user is already verified (`ReplayIsAlreadyVerified`).

The model follows the evident intent of some code that cannot run as written:

- `confirmUser` calls `TokenService`, but the imported name is `tokenService`.
- The controller passes callbacks to service functions that return promises.
- `saveUser` and `changePassword` construct `new Promise(res, reject => …)`.
- The controller calls `userService.findOneUser`, but the service exports
  `findSingleUser`. The model takes the call to be a single-document lookup.

Each such call is modelled as the single sequential state transition the code
evidently means.

## Model

| member | source | states |
|---|---|---|
| `Accounts.Doc` | services/UserService.js:67-69 | an upserting update applies to the stored document; for a missing id it applies to a document with nothing but its id: no names, email, password or join date, unverified, and with empty edge sets |
| `FollowGraph.FollowUser` | services/UserService.js:63-83 | afterwards `f` is in `u.following` and `u` is in `f.followers`; both sets are the old ones with the new member added; both documents exist; only those two sets change, and no other document changes |
| `FollowGraph.UnfollowUser` | services/UserService.js:85-105 | afterwards `f` is not in `u.following` and `u` is not in `f.followers`; both sets are the old ones minus that member; both documents exist (upserted if missing); only those two sets change |
| `FollowGraph.FollowCreatesFollowerDoc` | services/UserService.js:67-73 | a follower without a document gets a fresh one whose `following` is exactly `{f}` |
| `FollowGraph.FollowCreatesFollowedDoc` | services/UserService.js:75-81 | a followed user without a document gets a fresh one whose `followers` is exactly `{u}` |
| `FollowGraph.SelfFollowIsRecorded` | services/UserService.js:63-83 | following yourself is not refused; the user ends up in both of its own edge sets |
| `FollowGraph.FollowPresentEdgeIsNoop` | services/UserService.js:67-81 | following an edge already present on both existing documents leaves the store exactly as it was |
| `FollowGraph.FollowIdempotent` | services/UserService.js:67-81 | following twice gives the same store as following once |
| `FollowGraph.UnfollowAbsentEdgeIsNoop` | services/UserService.js:89-103 | unfollowing an edge absent from both existing documents leaves the store exactly as it was |
| `FollowGraph.UnfollowIdempotent` | services/UserService.js:89-103 | unfollowing twice gives the same store as unfollowing once |
| `FollowGraph.UnfollowAfterFollow` | services/UserService.js:63-105 | follow then unfollow gives the same store as unfollow alone, for every store |
| `FollowGraph.FollowAfterUnfollow` | services/UserService.js:63-105 | unfollow then follow gives the same store as follow alone, for every store |
| `FollowGraph.FollowUnfollowRoundTrip` | services/UserService.js:63-105 | on existing documents without the edge, follow then unfollow restores the original store exactly |
| `FollowGraph.FollowPreservesConsistency` | services/UserService.js:65-82 | if the follow graph is symmetric and closed before a follow, it still is afterwards |
| `FollowGraph.UnfollowPreservesConsistency` | services/UserService.js:87-104 | if the follow graph is symmetric and closed before an unfollow, it still is afterwards |
| `FollowGraph.FollowPreservesUniqueness` | services/UserService.js:63-83 | a follow never makes two documents share a user name or an email, including when it upserts a blank document |
| `FollowGraph.UnfollowPreservesUniqueness` | services/UserService.js:85-105 | an unfollow never makes two documents share a user name or an email, including when it upserts a blank document |
| `Paging.Insert` | services/UserService.js:36-38 | inserting into a join-ordered sequence keeps it ordered and adds exactly that document |
| `Paging.SortByJoined` | services/UserService.js:36-38 | the listing order is ascending by join date, with undated documents first, and is a permutation of the collection |
| `Paging.Window` | services/UserService.js:35-36 | skip then limit: exactly min(limit's magnitude, documents left after `skip`) documents, or all that are left when the limit is 0, taken in order starting from position `skip` |
| `Paging.WindowOfSorted` | services/UserService.js:35-38 | a window of the sorted collection is sorted and holds only documents of the collection |
| `Paging.PagedUsers` | services/UserService.js:34-39 | fails exactly when the skip `perPage * page - perPage` is negative or beyond the signed 64-bit range; otherwise returns the window at that offset of the join-ordered collection, sorted and drawn from the collection |
| `Paging.PageNumber` | server/controllers/UserController.js:68 | the page number is at least 1 for every input, including a missing one; a requested page of at least 1 is kept |
| `Paging.PageCount` | server/controllers/UserController.js:79 | the page count is the ceiling of `count / perPage`: zero exactly for an empty collection, otherwise the least `p` with `count <= p * perPage` |
| `Paging.ListPage` | server/controllers/UserController.js:65-84 | the clamp rules out a negative skip, so the query fails exactly when the clamped page's skip leaves the 64-bit range; otherwise the view reports page size and limit 15, the clamped page, the ceiling page count, and the window of at most 15 users at that page |
| `Paging.PageWithinCount` | server/controllers/UserController.js:79 | the page holding the user at place `i` is between 1 and the reported page count |
| `Paging.EveryUserHasAPage` | server/controllers/UserController.js:65-84 | the user at place `i` in join order (any place within the 64-bit skip range) is listed on page `i / 15 + 1` (with the one tie order of `SortByJoined` used by every query) at position `i % 15`, and that page is within the page count |
| `Paging.PagesPastTheEndAreEmpty` | server/controllers/UserController.js:65-84 | a page number beyond the reported page count lists no users whenever the query succeeds |
| `Paging.HugePageFails` | server/controllers/UserController.js:68-71 | page 700000000000000000 gives a skip beyond the 64-bit range, so the query fails rather than listing an empty page |
| `Paging.SeventeenUsersMakeTwoPages` | server/controllers/UserController.js:66-79 | with 17 users the page count is 2, and page 2 lists the last 2 users in join order |
| `Credentials.ChangePassword` | services/UserService.js:107-122 | fails exactly when the attempted password does not match the stored hash, and then no store is produced; on success only that user's password changes, to the hash of the new password |
| `Credentials.NewPasswordAuthenticates` | services/UserService.js:109-116 | when hashing and comparison agree, the new password is accepted by the next change-password attempt |
| `Credentials.ChangePasswordPreservesInvariants` | services/UserService.js:107-122 | a password change keeps the follow graph consistent and user names and emails unique |
| `Verification.FindToken` | server/controllers/UserController.js:104-112 | finds nothing exactly when no token has the given text; otherwise finds a stored token with that text |
| `Verification.FindUser` | server/controllers/UserController.js:114-128 | finds a user exactly when the id exists and its email equals the given one |
| `Verification.ConfirmUser` | server/controllers/UserController.js:103-153 | each failure kind holds exactly when its guard fails: no token, no user matching id and email, already verified; success sets `isVerified` on that user only |
| `Verification.ConfirmVerifiesExactlyOne` | server/controllers/UserController.js:137-150 | a success verifies exactly one previously unverified user, keeps every verified user verified, and changes nothing else |
| `Verification.ReplayIsAlreadyVerified` | server/controllers/UserController.js:103-153 | the token is not consumed: repeating a successful confirmation fails as already verified |
| `Verification.ConfirmPreservesInvariants` | server/controllers/UserController.js:137-150 | a confirmation keeps the follow graph consistent and user names and emails unique |
| `Registration.HexDigit` | server/controllers/UserController.js:22 | each digit of the token text is a lower-case hexadecimal character |
| `Registration.DigitValue` | server/controllers/UserController.js:22 | reads a lower-case hexadecimal digit back to the value it encodes, and rejects other characters |
| `Registration.Hex` | server/controllers/UserController.js:22 | the token text has two characters per byte, all lower-case hexadecimal digits |
| `Registration.UnhexHex` | server/controllers/UserController.js:22 | decoding the token text gives back exactly the random bytes |
| `Registration.HexInjective` | server/controllers/UserController.js:20-23 | distinct random bytes give distinct token texts |
| `Registration.CreateUser` | server/controllers/UserController.js:5-33 | fails with the single generic error exactly when the id, user name or email is taken, and then nothing is written; on success the store gains one unverified user carrying the form's names and email, a hashed password and no edges, and exactly one token is appended, linked to the new id, 32 lower-case hex characters encoding the 16 random bytes |
| `Registration.CreatePreservesInvariants` | services/UserService.js:6-20 | registration keeps the follow graph consistent and user names and emails unique |
| `Registration.FindFreshToken` | server/controllers/UserController.js:104-106 | a newly issued token with a fresh text is the one its text finds |
| `Registration.RegisterThenConfirm` | server/controllers/UserController.js:5-153 | registering and then confirming with the issued token verifies the new user; repeating the confirmation fails as already verified |
| `Registration.ReRegistrationRejected` | server/controllers/UserController.js:12-18 | once registered, the same user name or email cannot be registered again under any id |

## Left out

- HTTP request and response shaping: status codes, message texts and the `next()` call. Only the kind of outcome is modelled.
- Storage faults: the 500 branches of `confirmUser` (lookup error, update error) and of `createUser` (token save error). The hash error in `saveUser` and `changePassword` is left out too. These are database or library failures that no input of the model controls.
- `searchService.addIndex` after a save. It is a fire-and-forget call into an external service.
- `updateLogin`, which needs the clock and the client address; the model has no `lastSeen` or `remoteAddress` fields.
- `deleteUser`, a bare delete with a thrown callback error.
- `updateUser` as a general patch, and the lookups `findUsers` and `findSingleUser`. Their relationship population and the controller's `findOneUser` and `findUser` are database plumbing. Only the two lookups `confirmUser` performs are modelled.
- The unordered bulk write and its lack of atomicity. Each follow or unfollow is modelled as one sequential transition applying both updates.
- The bcrypt salting and cost, and `crypto.randomBytes`. They are inputs or abstract functions.
- The user and token schemas. `models/User.js` and `models/Token.js` are not part of this model. The unique indexes on `userName` and `email` are inferred from the failure message. They are taken to be sparse: a document without the field is exempt. Schema validation and any token expiry are not modelled. A new user is taken to start unverified, with its join date set to the save time.
- `Paging.PageNumber`: the route parameter is modelled as a missing value or an integer. A non-numeric string makes `Math.max` yield NaN, and a fractional page gives a fractional skip; neither is modelled. Page numbers are exact integers, not doubles, so rounding of very large pages is not modelled either.
- `Paging.SortByJoined`: the model puts documents with equal join dates in one fixed order. The database promises no order among them.
- `Paging.PagedUsers`: the behaviour for a skip outside the 0 to 2^63 - 1 range (refused), a zero limit (no limit) and a negative limit (its magnitude) is the database's, not the repository's code. A limit outside the 64-bit range is not modelled as a failure.
- `Paging.EveryUserHasAPage`: it requires the user's place to be at most 2^63 - 1, the largest skip the database accepts. It also assumes that every page query breaks ties in join date the same way, as the model's one fixed sort does. The database promises no such thing, and ties are common: every document created by a follow or unfollow upsert has no join date. With tied dates, two page queries may order the tied users differently, so a user can appear on two pages or on none.
- `FollowGraph.FollowUser`, `FollowGraph.UnfollowUser`: both ids are assumed to arrive as object ids. The follower's filter (`_id: userId`) is not cast, and the collection used is the raw driver collection. A follower id given as a hex string would upsert a separate string-keyed document while the followed user's `followers` gains the object id, breaking symmetry. One `Id` type cannot express that.
- `FollowGraph.FollowPreservesUniqueness`, `FollowGraph.UnfollowPreservesUniqueness`: they assume the unique indexes on `userName` and `email` are sparse, so documents without those fields are exempt. With a default unique index, only one document may lack the field: a second blank upsert would be refused, and the unordered bulk write would leave the other half applied. `FollowGraph.FollowCreatesFollowerDoc` and `FollowGraph.FollowCreatesFollowedDoc` rest on the same assumption.
- `Paging.Count` has no contract of its own. It is the length of the collection and appears in `Paging.ListPage` as the page count's input.
- `Registration.RegisterThenConfirm`: it requires that the new token's text differs from every stored token's text. The 128 random bits make a repeat unlikely, but the model does not derive that.
