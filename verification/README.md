# kament in Dafny

kament is a comment system for static pages. A browser widget signs the reader
in with GitHub, then reads and posts the comments of the page it is embedded
in. A small Deno backend serves two endpoints:

- `/api/token` trades a GitHub OAuth code for a session token.
- `/api/comments/:postslug` answers pre-flights, stores comments and lists
  them through an in-memory cache.

This project models the logic of those endpoints, the request validator they
share, and the widget's two query-string helpers. It proves what they promise.

| file | models |
|---|---|
| `validate.dfy` | `validateRequest` of `util.js`: the method allow-list, then the required query parameters in order |
| `text.dfy` | JavaScript's `indexOf`, `includes`, `split` (with a non-empty separator) and `join`, with their round-trip laws |
| `query.dfy` | `toQuery` and `toParams` of `client/kament.js` (the same code stands in `client/kament.jsx`), with a plain object as an ordered list of own properties |
| `store.dfy` | the comment store as an abstract value: posts by slug, comment threads in insertion order, users by username, one id counter, unique slugs and usernames |
| `http.dfy` | responses, JSON bodies and the session token's header and claims |
| `comments.dfy` | the comments endpoint: `commentsCache` is the field `cache` of class `CommentsHandler`, whose `Handle` method serves one request |
| `token.dfy` | the token endpoint: `TokenHandler` and the GitHub helpers `getGHAcessToken` and `getGHUserInfo` |

A handler takes the store as a value and returns it with the response, so every
write to the store is visible in the contracts. The following are inputs:

- what GitHub answers for a given code or access token;
- whether the session token verified;
- which store calls fail, and with which message;
- the environment variables;
- timestamps.

## Model

| member | source | states |
|---|---|---|
| Validate.FirstMissing | util.js:13-19 | the first required parameter the query lacks, in list order; `None` exactly when all are present |
| Validate.ValidateRequest | util.js:7-21 | a method outside a non-empty allow-list fails first, with its message; otherwise it passes exactly when every required parameter is present; a failure names the first missing parameter |
| Validate.EmptyAllowListAcceptsAnyMethod | util.js:8-9 | with no allow-list, the method plays no part in the outcome |
| Validate.EmptyValueCountsAsPresent | util.js:16 | `?code=` with an empty value satisfies a required `code` (`has`, not truthiness) |
| Text.IndexOf | api/token.ts:55 | the position found is an occurrence and no earlier one exists; `None` means no occurrence at all (`includes`) |
| Text.SplitThenJoin | client/kament.js:294 | joining the pieces of `split(sep)` with `sep` gives the string back |
| Text.SplitPiecesAvoidSeparator | api/comments.ts:55 | no piece of `split(sep)` contains `sep` |
| Text.JoinThenSplit | client/kament.js:294-295 | pieces free of a one-character separator, once joined, split back into the same pieces |
| Query.Assign | client/kament.js:296 | `values[key] = value`: the key then holds the value, other keys are unchanged, and a new key is appended last |
| Query.AssignKeepsKeys | client/kament.js:296 | assigning an existing key keeps every key in its place |
| Query.AssignKeepsDistinct | client/kament.js:296 | an object keeps each key once after an assignment |
| Query.QueryFoldJoins | client/kament.js:303-309 | the `reduce` from any index is the accumulated text plus the remaining pairs joined by the delimiter |
| Query.ToQueryJoinsPairs | client/kament.js:301-310 | `toQuery` is the `key=value` pairs in key order, with the delimiter between pairs and none after the last |
| Query.ToQueryEmpty | client/kament.jsx:301-310 | an object without keys gives the empty string |
| Query.WindowFeatures | client/kament.js:222 | the popup's features `{height: 600, width: 600}` with "," give "height=600,width=600" |
| Query.StripLeadingSlash | client/kament.js:293 | the regular expression drops exactly a leading "/" or "?/" and leaves any other text alone |
| Query.EntryOfShape | client/kament.js:295 | a piece's key is its text before the first "=", its value the "="-free text after the first "=", running up to the second "=" or the end of the piece, and `undefined` exactly when there is no "=" |
| Query.ToParamsEmpty | client/kament.jsx:292-299 | `toParams("")` is `{"": undefined}` |
| Query.AssignAllDistinct | client/kament.js:294-297 | every object `toParams` builds has each key once |
| Query.LastAssignmentWins | client/kament.js:294-297 | for a repeated key the last piece decides the value; a key no piece carries keeps its earlier value |
| Query.AssignAllFresh | client/kament.js:294-297 | folding pieces whose keys are new and distinct appends their entries in order |
| Query.ParamsOfQuery | client/kament.js:292-310 | round trip: `toParams(toQuery(params))` gives back the same keys, in order, with the same values, for plain keys and values and a first key that does not start with "/" or "?/" |
| Store.CreatePost | db/mod.ts:54-84 | a new slug gets a fresh id and nothing else changes; a slug that already has a post, or a failure, gives an error and leaves the store as it was; the invariant is kept |
| Store.CreateComment | db/mod.ts:151-202 | a new comment is appended last to its post's thread and to no other; a failure leaves the store as it was; the invariant is kept |
| Store.ListComments | db/mod.ts:270-314 | a slug with a post lists its thread; a failure, or a slug without a post, gives the store's error |
| Store.FindUser | db/mod.js:168-193 | the user filed under the username, unless the lookup fails |
| Store.CreateUser | db/mod.js:73-116 | a new username gets a user with that profile; a taken username, or a failure, gives an error and leaves the store as it was; the invariant is kept |
| Store.CreatedCommentListedLast | api/comments.ts:97-108 | right after a comment is created on a slug's post, that slug lists its earlier thread plus the new comment, and every other slug lists what it listed before |
| CommentsApi.PreflightAllowsRequestTermMethods | api/comments.ts:16-23 | the pre-flight lists the request terms' methods in order: "POST, OPTIONS, GET" |
| CommentsApi.BearerTokenShape | api/comments.ts:55 | a header gives a token exactly when it contains "Bearer ", and the token never contains "Bearer " |
| CommentsApi.BearerTokenOfHeader | api/comments.ts:55 | "Bearer " followed by a token gives back that token |
| CommentsApi.ResolvePost | api/comments.ts:83-93 | a post found under the slug is reused without writing; otherwise `createPost` runs; the id resolved is the one filed under the slug, and a slug never gets a second post |
| CommentsApi.ResolveAgainReuses | api/comments.ts:83-93 | resolving a slug again after it resolved gives the same post and creates nothing |
| CommentsApi.RacingFirstPostsMakeOnePost | api/comments.ts:83-90 | two first POSTs whose lookups both ran before either created the post: the second creation is refused and the slug has one post |
| CommentsApi.CachedComments | api/comments.ts:116-120 | a cache hit exactly when the slug has an entry of its own, and the hit is that entry |
| CommentsApi.ConstructorSlugHitsEmptyCache | api/comments.ts:116-120 | on an empty cache, "constructor" is a hit as written and a miss as intended |
| CommentsApi.AsWrittenAgreesOffPrototype | api/comments.ts:116-120 | for a slug that names no `Object.prototype` member, the cache test as written hits exactly when the intended lookup does, on every cache |
| CommentsApi.CommentsHandler.constructor | api/comments.ts:14 | the cache starts empty |
| CommentsApi.CommentsHandler.Handle | api/comments.ts:25-132 | per branch, in the order of the checks: validator error; pre-flight; POST refusals (no token, no secret, token rejected); post resolve-or-create; comment write. A GET is served from the cache or from the store. Each branch gives the response, the new cache (only this slug's entry is dropped on a 201 and filled on a listing) and the new store (never written by GET or a refusal). Only an authenticated write is answered 201. |
| CommentsApi.PostThenList | api/comments.ts:83-108 | after a POST answered 201 the slug's cache entry is gone and the store lists the slug's thread with the new comment last |
| CommentsApi.ReadThrough | api/comments.ts:116-131 | a GET that misses the cache and is answered by the store serves that listing and caches it under the slug |
| CommentsApi.ReadYourWrites | api/comments.ts:107 | after a POST answered 201, a GET for the same slug that the store answers returns a list whose last element is the posted comment |
| CommentsApi.FirstReadOfEmptyStore | api/comments.ts:116-125 | a fresh handler's GET against a store with no posts, for any slug, is answered 200 with the store's "not found" message as `{error}`; under the corrected cache lookup, this includes slugs naming `Object.prototype` members |
| TokenApi.FirstValueIsFirst | api/token.ts:47-48 | `searchParams.get` finds a value exactly when `has` holds, and it is the value of the first pair with that name |
| TokenApi.GetAccessToken | api/token.ts:110-138 | both client credentials are required, in order, before GitHub is asked; with both set, a reply body is always returned and a failed exchange throws its message; an error GitHub reports comes back as its description, with neither token nor scope; otherwise its token and scope |
| TokenApi.UserInfo | api/token.ts:141-164 | `login` becomes the username and `avatar_url` the avatar; name and email pass through |
| TokenApi.IssueToken | api/token.ts:85-99 | without a signing secret, a 500 naming the variable; with one, a 200 carrying an HS512 token over the user's id and username, signed with that secret |
| TokenApi.SignIn | api/token.ts:64-99 | the user is found by username or created; a failed creation is a 500 with the store's message; the token is issued for the user found or created; at most one user is added and no existing user changes |
| TokenApi.TokenHandler | api/token.ts:23-104 | per branch, in order: validation failure (a 500); pre-flight; exchange failure (a 500); GitHub's error (a 400); no "email" scope (a 400); profile failure (a 500); then sign-in. Users change only once the grant is usable, by at most one addition. |
| TokenApi.PreflightWithoutCodeFails | api/token.ts:25-28 | a pre-flight without `?code=` fails validation, naming `code` |
| TokenApi.ErrorWithoutDescriptionFailsScope | api/token.ts:133-135 | a GitHub error without a description yields an empty error and an empty scope, so the scope check refuses it |

## Left out

- Signing and verifying session tokens (djwt, HMAC-SHA512): the token is the value `Jwt(header, claims, key)`, and the outcome of `verify` is the input `verdict`.
- The calls to GitHub and to the store's GraphQL endpoint: their replies are inputs (`grantFor`, `profileFor`, `StoreFaults`, `lookupFails`, `createFault`).
- An unset `FAUNA_SECRET`, which makes every store call throw before it is sent.
- Store replies that carry both data and an error, data without an id, and a reply with neither data nor error, which a GET answers and caches as an empty list (api/comments.ts:127).
- A store call that throws (a network failure, an unparsable reply): `queryFuana` returns the caught `Error` as `error` (db/mod.ts:49-51). After a failed `createComment`, `json(error, { status: 500 })` (api/comments.ts:104) serializes such an `Error` as `{}`. The model always answers with `ErrorObject(message)`, which is `{message}`.
- The request validator of the sift library that api/comments.ts uses: its verdict and its error status are the input `Validation`. `util.js` is the validator api/token.ts uses.
- `getUserId`, which api/token.ts imports from db/mod.js although db/mod.js does not export it: the model reads it as the lookup by username, `Store.FindUser`.
- Store.ListComments, CommentsApi.PostThenList, CommentsApi.ReadYourWrites, Store.CreatedCommentListedLast: the model lists a post's whole thread, oldest first. `getCommentsOfPost` asks for the post's `comments` relation without a page size, returns only `comments.data` and ignores the `before`/`after` cursors (db/mod.ts:276-309). The code therefore returns only the store's first page. Once a thread is longer than one page, the GET after a 201 need not contain the new comment: these members hold in the code only while the thread fits in the first page.
- How the store reports a slug that has no post: the model assumes the same "not found" error (`Store.NotFound`) for `getPostId` and `getCommentsOfPost`. A POST therefore creates the post, and a GET for a slug without a post answers `{error}` with status 200 (api/comments.ts:122-125), not an empty list.
- Token expiry: the code sets no `exp` claim (api/token.ts:90-97), so `Claims` holds only the user's id and username.
- Unique slugs and usernames are an assumption about the store: the code never checks them, and only the comments at db/mod.ts:54 and db/mod.ts:89 ask for them. `Store.CreatePost` and `Store.CreateUser` refuse a taken slug or username with `Store.NotUnique`, and `CommentsApi.RacingFirstPostsMakeOnePost` holds only because of that refusal.
- CommentsApi.CommentsHandler.Handle: the GET branch tests the cache with the corrected lookup `CommentsApi.CachedComments`, not the test as written (`CommentsApi.CacheHitAsWritten`, see "## Findings"). For a slug naming an `Object.prototype` member with no entry of its own, such as "constructor", the code answers 200 with the inherited member without reading the store. That member serializes as `{}` for the function-valued members, and as `{"comments":{}}` for "__proto__", whose value is `Object.prototype`. The model instead reads the store and caches the listing. `CommentsApi.ReadThrough`, `CommentsApi.ReadYourWrites` and `CommentsApi.FirstReadOfEmptyStore` rest on the same corrected lookup. On a fresh process, a GET for "constructor" gets the inherited member in the code, not the "not found" error that `CommentsApi.FirstReadOfEmptyStore` states.
- The store's exact error messages are modelled as constants; timestamps (`new Date().toISOString()`) are the input `createdAt`.
- Concurrency: handlers run one request at a time against one process's cache; interleaving appears only in `CommentsApi.RacingFirstPostsMakeOnePost`.
- Query.ToQueryJoinsPairs, Query.Assign, Query.AssignAllFresh: a plain object is a list of its keys in insertion order. JavaScript lists integer-like keys first in `Object.keys` (`values["2"] = …` on `{b: …}` puts "2" first), and that reordering is not modelled, nor is the printing of non-string values.
- Query.LastAssignmentWins: every key is an own property; assigning to `__proto__` (the prototype setter) is not modelled.
- The widget's user interface, `PopupWindow` apart from its `toQuery` call, `console.log`, and the older handler variants (api/comments.js, api/token.js) are not part of this model.

## Findings

| source | as written | input that shows it | evidently intended | confidence | as-written member | corrected member |
|---|---|---|---|---|---|---|
| api/comments.ts:116 | `if (commentsCache[postslug])` on a plain `{}` counts an inherited `Object.prototype` member as a cache hit, serving that member instead of the store's comments | the slug "constructor" on an empty cache (`CommentsApi.ConstructorSlugHitsEmptyCache`) | a hit only for a slug the cache holds as its own entry | not executed | CommentsApi.CacheHitAsWritten | CommentsApi.CachedComments |
