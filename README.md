# Bearer-credential gate, validators and request decisions of a small image/role API

This project models, in Dafny, the core of a small web backend in which users
log in, receive a JSON Web Token (RFC 7519), and send it back as a bearer
credential to list, upload, replace and delete images; roles and users are
validated by serializers before they are stored.

- `base.dfy` (`Base`): `Option`, `Result` and `dict.get`.
- `models.dfy` (`Models`): the user and image rows, and the `Store` class
  holding the three tables (roles by name, users by username, images by id)
  with the row operations the handlers use. Both deletes apply the
  `on_delete=SET_NULL` rule: deleting a role clears the role of its users,
  and deleting a user clears the uploader of its images. `Store.Valid()` is
  referential integrity, and every operation keeps it.
- `utils.dfy` (`Utils`): the credential gate, as pure functions. The header
  loses every `"` and `'` (not only surrounding ones), must start with
  `Bearer `, and the rest is the token. Decoding maps the verifier's
  verdicts to "Token has expired" / "Invalid token". `CheckAccess` collapses
  every failure into one `AuthenticationFailed` with the default detail.
  Signing and verification (HS256) are the function parameters `sign` and
  `verify`. What the library guarantees is the predicate `SignerSound`:
  a token issued for a payload decodes to that payload from its issue time
  up to and including its expiry second, and is expired afterwards. `CompactTokens` says that
  tokens contain no quotes, and `Unforgeable` that only the signer can make
  a token the verifier accepts or reports as expired. Lemmas that need these take them as
  preconditions. The clock is an integer number of seconds.
- `serializers.dfy` (`Serializers`): the role allow-list, the alphanumeric
  username rule (with the per-character test as a parameter), the rule tying
  a subscription plan to the `growth_plan_subscriber` role, and `Create`,
  which pops `role` and `password` from the validated fields and saves the
  new user.
- `views.dfy` (`Views`): login and the image gate as functions, and every
  role and image handler as a method over a `Store`. Their postconditions
  give each outcome: status and body, or the exception raised. They also
  give the new tables, and they state that a refused request leaves the
  store unchanged.

Facts about the code that the model keeps:
- the header loses every `"` and `'`, not only surrounding ones;
- the token lifetime is 180 minutes;
- a caller whose user row is missing or has a null role makes the image
  handler raise, rather than answer with a status;
- a caller with any other role than `beta_player` is answered 401;
- the generated `role` field strips surrounding whitespace before any other
  check, so a padded allowed role is stored without its padding.

## Model

| member | source | states |
|---|---|---|
| `Utils.Without` | api/utils.py:38 | `str.replace(c, '')`: the result has every character of the input except `c`, with the same multiplicities, and never contains `c` |
| `Utils.WithoutAbsent` | api/utils.py:38 | deleting a character that does not occur leaves the string unchanged |
| `Utils.WithoutConcat` | api/utils.py:38 | deletion distributes over concatenation, so the remaining characters keep their order |
| `Utils.StripQuotes` | api/utils.py:38 | after both replaces no `"` or `'` is left, and every other character keeps its count |
| `Utils.StripQuotesAbsent` | api/utils.py:38 | a header with no quotes is left as it is |
| `Utils.StripQuotesIdempotent` | api/utils.py:38 | deleting the quotes a second time changes nothing |
| `Utils.GetToken` | api/utils.py:28-43 | if the quote-free header starts with `Bearer `, the result is status 200 with only a `token` key, and `"Bearer " + token` is the quote-free header; otherwise status 400 with only the error `Invalid Authorization header` |
| `Utils.TokenQuoteFree` | api/utils.py:38-41 | an extracted token contains no quote |
| `Utils.BearerHeaderYieldsToken` | api/utils.py:39-41 | `Bearer <t>` with a quote-free `t` yields exactly `t` with status 200 |
| `Utils.GetTokenInvalidExamples` | api/tests.py:22-26 | `InvalidHeaderFormat` gives status 400 and an `error` key |
| `Utils.GetTokenEmptyHeader` | api/utils.py:42-43 | the empty header gives status 400, an `error` key and no `token` key |
| `Utils.Payload` | api/utils.py:19-23 | the claim set has exactly the keys `username`, `exp`, `iat`; `username` is the user's name, `iat` the issue time and `exp` 180 minutes after it |
| `Utils.EncodeToken` | api/utils.py:9-25 | the token is the signature of the user's claim set issued at `now`, so the round-trip lemmas below apply to it |
| `Utils.DecodeToken` | api/utils.py:56-62 | success exactly when the verifier returns claims, which are returned unchanged; an expired verdict gives "Token has expired" and any other invalid verdict gives "Invalid token" |
| `Utils.CheckAccess` | api/utils.py:78-82 | success exactly when the quote-free header has the prefix, the rest decodes and the claims hold `username`, and then the result is that claim; every failure is the same `AuthenticationFailed` with the default detail |
| `Utils.MissingHeaderRefused` | api/utils.py:79 | a request without an `Authorization` header is refused, because the missing header is read as `""` |
| `Utils.IssuedTokenDecodes` | api/utils.py:19-25 | under `SignerSound`, a token decoded from its issue time up to and including its expiry second gives back its payload, whose `username` is the user's |
| `Utils.IssuedTokenExpires` | api/utils.py:57-60 | under `SignerSound`, a token decoded after its lifetime gives "Token has expired" |
| `Utils.IssuedTokenGrantsAccess` | api/utils.py:65-82 | under `SignerSound` and `CompactTokens`, `Bearer <issued token>` resolves to the user's username up to and including the expiry second |
| `Utils.ExpiredTokenRefused` | api/utils.py:78-82 | after expiry the same header is refused with the uniform failure |
| `Utils.ForgedTokenRejected` | api/utils.py:56-62 | under `Unforgeable`, a token that is not the signature of an issued claim set (a tampered one) is rejected with "Invalid token", never "Token has expired" |
| `Utils.AccessOnlyWithIssuedToken` | api/utils.py:78-80 | under `Unforgeable` and `SignerSound`, a request resolved to a username carries `Bearer ` and a token issued for that username whose lifetime has not passed |
| `Serializers.InvalidRoleMessageText` | api/serializers.py:90-94 | the rejection message lists the three allowed roles joined by `", "` |
| `Serializers.ValidateRole` | api/serializers.py:90-96 | accepts exactly `beta_player`, `company_user` and `growth_plan_subscriber` (case-sensitive) and returns the value unchanged; anything else raises the listing message |
| `Serializers.LeadingSpaces` | api/serializers.py:76-78 | the count of leading whitespace characters: all of them are whitespace and the next one is not |
| `Serializers.TrailingSpaces` | api/serializers.py:76-78 | the count of trailing whitespace characters: all of them are whitespace and the one before is not |
| `Serializers.Strip` | api/serializers.py:76-78 | the generated `role` field's trimming: the result is the infix after the leading whitespace, only whitespace follows it, and it neither starts nor ends with whitespace |
| `Serializers.StripUnpadded` | api/serializers.py:76-78 | a value without surrounding whitespace is left as it is |
| `Serializers.StripPadded` | api/serializers.py:76-78 | whitespace padding around an unpadded value is removed exactly |
| `Serializers.ValidateRolePayload` | api/serializers.py:69-96 | a role payload is accepted exactly when `role` is present and its stripped value is not the name of another existing row and is allowed; the accepted value is the stripped one |
| `Serializers.PaddedRoleAccepted` | api/serializers.py:76-96 | an allowed role padded with whitespace is accepted as the role itself when no other row has that name |
| `Serializers.AllAlnum` | api/serializers.py:126 | true exactly when every character passes the per-character test |
| `Serializers.IsAlnum` | api/serializers.py:126 | `str.isalnum`: non-empty and every character alphanumeric |
| `Serializers.Validate` | api/serializers.py:124-130 | the attributes are accepted exactly when they hold a non-empty, all-alphanumeric username (a missing one is rejected), and are returned unchanged |
| `Serializers.ValidateSubscriptionPlan` | api/serializers.py:146-150 | with the request's role present, a plan is accepted exactly when (role is `growth_plan_subscriber`) iff (a plan is given), and is returned unchanged; a request without `role` raises `KeyError` |
| `Serializers.PlanMatchesRole` | api/serializers.py:143-149 | an accepted plan belongs to a `growth_plan_subscriber`, and such a user always has one |
| `Serializers.Create` | api/serializers.py:162-176 | no role raises; an unknown role raises the form-level "Role with provided ID does not exist."; otherwise the saved user has that role, the username and plan of the fields left after removing `role` and `password`, and a password hash only when a password was supplied; nothing else in the store changes |
| `Models.ClearRole` | api/models.py:38 | after a role is deleted, no user refers to it; its holders lose only their role |
| `Models.ClearUploader` | api/models.py:53 | after a user is deleted, no image refers to them; their images lose only the uploader |
| `Models.Store.DeleteRole` | api/models.py:38 | the role row goes and its users' roles become null; integrity is kept |
| `Models.Store.DeleteUser` | api/models.py:53 | the user row goes and their images' uploader becomes null; integrity is kept |
| `Models.Store.SaveRole` | api/views.py:51 | `serializer.save()` on a role: the name is added to the table, and an existing row (the old name after a rename) is kept; nothing else changes |
| `Models.Store.InsertUser` | api/serializers.py:175 | `instance.save()` on a new user: the row is stored under its username, with its role existing; nothing else changes |
| `Models.Store.UpdateImage` | api/views.py:128 | `serializer.save()` on an existing image: only that row is replaced; integrity is kept |
| `Models.Store.DeleteImage` | api/views.py:142 | `image.delete()`: only that row goes; integrity is kept |
| `Models.Store.InsertImage` | api/models.py:52 | a new image gets the next auto-increment id, which no other image has |
| `Views.Authorize` | api/views.py:96-99 | an image mutation passes exactly when access is granted and the caller's user row has role `beta_player`; an authentication failure propagates; a missing row or null role raises; any other role gets 401 |
| `Views.DeletedRoleLocksOut` | api/models.py:38 | a user whose role was deleted can no longer pass the gate |
| `Views.DeletedUserLocksOut` | api/views.py:97 | a token whose user was deleted no longer passes the gate |
| `Views.Login` | api/views.py:21-40 | missing credentials raise; an unknown user fails with "User not found!" and a wrong password with "Incorrect password!"; only when both checks pass is the response status 200 with body exactly `{'jwt': token}` |
| `Views.LoginThenPermitted` | api/views.py:24-40 | end to end: a `beta_player` who logs in can use the token as `Bearer <token>` until its expiry second to pass the image gate |
| `Views.LoginThenRefused` | api/views.py:119-122 | end to end: a user of another role authenticates with the token but the gate answers 401 |
| `Views.RoleList` | api/views.py:43-46 | every role row is returned |
| `Views.RoleCreate` | api/views.py:48-53 | a valid payload is stored with 201; an invalid one gives 400 and the table is unchanged, so every role created here is allowed |
| `Views.RoleRetrieve` | api/views.py:57-63 | an existing role is returned; an unknown one gives 404 |
| `Views.RoleUpdate` | api/views.py:65-74 | 404 for an unknown role, 400 for an invalid payload, otherwise the row is saved under the new name; only allowed roles enter the table |
| `Views.RoleDestroy` | api/views.py:76-85 | 404 for an unknown role; otherwise the row goes, its users have no role, and the answer is "deleted successfully" |
| `Views.ImageList` | api/views.py:89-93 | any authenticated caller, whatever their role, gets every image; otherwise the authentication failure is raised |
| `Views.UploaderError` | api/views.py:101-105 | an image whose `uploaded_by` names no user is answered 400 with an error on that field |
| `Views.ImageCreate` | api/views.py:95-105 | only a caller passing the gate stores an image, with 201 and under the next id; a refusal or an unknown uploader leaves the store unchanged |
| `Views.ImageRetrieve` | api/views.py:109-116 | any authenticated caller gets an existing image; an unknown id raises instead of answering 404 |
| `Views.ImageUpdate` | api/views.py:118-132 | the gate comes before the lookup, so a refused caller gets the gate's answer even for an unknown id; then 404 "Image does not exist", or 400, or the image is replaced |
| `Views.ImageDestroy` | api/views.py:134-148 | the gate first; then 404 "Image does not exist" with the store unchanged, or only that image is removed |

## Left out

- JWT signing and verification (HMAC-SHA-256 as in section 3.2 of RFC 7518, and the compact serialisation of RFC 7515) are a foreign library. They are the parameters `sign` and `verify`. Their round trip is the predicate `SignerSound`, taken as a precondition. As in PyJWT 1.x, whose expiry test is `exp < now`, a token still decodes at exactly its expiry second and is expired from the next one. The quote-free form of tokens is the predicate `CompactTokens`.
- `Utils.Unforgeable` assumes clients cannot sign tokens. The code signs and verifies with the literal secret `'secret'` (api/utils.py:25, 57), so anyone who reads it can forge a token for any username; `Utils.AccessOnlyWithIssuedToken` holds only where the secret is kept.
- `Utils.EncodeToken` assumes PyJWT 1.x, where `jwt.encode` returns bytes and `.decode('utf-8')` (api/utils.py:25) yields the token string. Under PyJWT 2.x `jwt.encode` returns a string, so `.decode` raises and every login fails; the model does not capture that.
- The clock: `encode_token` reads it twice (for `exp` and for `iat`). The model reads it once, so `exp - iat` is exactly 180 minutes. The timestamps are whole seconds.
- Password hashing and checking are the parameters `hash` and `matches`.
- `str.isalnum` uses Unicode tables; the model takes a per-character test as the parameter `alnum`.
- `Views.Authorize`: a `username` claim that is not a string is treated as matching no user. The ORM would compare its string form instead. Tokens issued by `encode_token` always carry a string.
- Request headers are an exact-case map; the framework's case-insensitive header lookup is not modelled.
- The framework's serializer field machinery is modelled only where it decides between acceptance and 400 for roles: the `role` field is required, is stripped of surrounding whitespace, must not be blank, and must be unique. Its `max_length` and type coercion, and the exact error messages, are not modelled; over-long values are rejected by the allow-list anyway.
- `Serializers.IsSpace`: `str.strip` removes Unicode whitespace; the model removes the ASCII whitespace characters only (space, tab, line feed, vertical tab, form feed, carriage return, 0x1C-0x1F).
- `Views.ImageCreate`, `Views.ImageUpdate`: image validation is reduced to "the uploader exists or is null". File validation and storage of `image_file` are not modelled. An update replaces the whole row.
- `Serializers.ValidateSubscriptionPlan`: the framework skips this check when the request has no `subscription_plan` field. The rule is modelled, not when the framework calls it.
- `Serializers.Create` takes only `username` and `subscription_plan` from the remaining fields; other keyword arguments of the model constructor are not modelled. A duplicate username raises an integrity error.
- The subscription-plan table and its foreign-key integrity are not modelled. The plan serializer and the registration view have no logic of their own and are not part of this model.
- Exceptions a handler does not catch are the single outcome `Uncaught`. The status the framework would give them is not modelled. `AuthenticationFailed` is an outcome of its own, and the status it turns into is not modelled either.
- The "delete failed" answers of the delete handlers are never reached: `delete()` returns a non-empty tuple, which is always true.
- The login cookie is set on a response object that is then discarded, so it is not part of the outcome.
- Routing, migrations, persistence and concurrency are not modelled. The test file is read only for the behaviour it asserts.
