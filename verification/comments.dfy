/**
 * The comments endpoint of api/comments.ts: OPTIONS answers the pre-flight,
 * POST stores a comment for the page named by the slug (creating the page's
 * post on first use) and GET lists a page's comments through a per-slug
 * response cache that a successful POST invalidates.
 *
 * The request validator, the verification of the session token and the
 * store's failures are inputs: `Validation`, `verdict` and `StoreFaults`.
 */
module CommentsApi {
  import opened Wrappers
  import opened Text
  import opened Store
  import opened Http

  /** The keys of `requestTerms`, in declaration order. */
  const RequestTermMethods: seq<string> := ["POST", "OPTIONS", "GET"]

  /** The headers of the answer to a pre-flight request. */
  function PreflightHeaders(): seq<(string, string)> {
    [("Access-Control-Allow-Origin", "*"),
     ("Access-Control-Allow-Methods", Join(RequestTermMethods, ", "))]
  }

  /** The pre-flight answer lists the methods "POST, OPTIONS, GET". */
  lemma PreflightAllowsRequestTermMethods()
    ensures PreflightHeaders()[1] == ("Access-Control-Allow-Methods", "POST, OPTIONS, GET")
  {
    assert RequestTermMethods[1..] == ["OPTIONS", "GET"];
    assert RequestTermMethods[1..][1..] == ["GET"];
    assert Join(["GET"], ", ") == "GET";
    assert Join(["OPTIONS", "GET"], ", ") == "OPTIONS" + ", " + "GET";
    assert Join(RequestTermMethods, ", ") == "POST" + ", " + ("OPTIONS" + ", " + "GET");
    assert "POST" + ", " + ("OPTIONS" + ", " + "GET") == "POST, OPTIONS, GET";
  }

  /** What the request validator made of the request: its parsed body's `comment`, or an error. */
  datatype Validation = Accepted(comment: string) | Rejected(message: string, status: nat)

  datatype CommentsRequest = CommentsRequest(
    verb: string,                   // request.method
    slug: string,                   // params.postslug
    authorization: Option<string>,  // the Authorization header
    validation: Validation)

  /** The store calls that fail during this request, with the store's error message. */
  datatype StoreFaults = StoreFaults(
    lookupFails: bool,              // getPostId returns no data
    createPost: Option<string>,
    createComment: Option<string>,
    list: Option<string>)

  const BearerPrefix: string := "Bearer "

  /** `request.headers.get("Authorization")?.split("Bearer ")[1]`. */
  function BearerToken(authorization: Option<string>): Option<string> {
    match authorization
    case None => None
    case Some(header) =>
      var parts := Split(header, BearerPrefix);
      if |parts| > 1 then Some(parts[1]) else None
  }

  /**
   * A header yields a token exactly when it contains "Bearer ", and the token
   * never contains "Bearer " itself: it is the text between the first and the
   * second occurrence (or the end).
   */
  lemma BearerTokenShape(header: string)
    ensures BearerToken(Some(header)).None? <==> !Contains(header, BearerPrefix)
    ensures BearerToken(Some(header)).Some? ==>
              !Contains(BearerToken(Some(header)).value, BearerPrefix)
  {
    if Contains(header, BearerPrefix) {
      var parts := Split(header, BearerPrefix);
      assert |parts| > 1;
      SplitPiecesAvoidSeparator(header, BearerPrefix, 1);
    }
  }

  /** The usual header, "Bearer " followed by the token, yields that token. */
  lemma BearerTokenOfHeader(token: string)
    requires !Contains(token, BearerPrefix)
    ensures BearerToken(Some(BearerPrefix + token)) == Some(token)
  {
    var header := BearerPrefix + token;
    assert header[0..|BearerPrefix|] == BearerPrefix;
    IndexOfIsFirst(header, BearerPrefix, 0);
    assert header[|BearerPrefix|..] == token;
    assert Split(token, BearerPrefix) == [token];
    assert Split(header, BearerPrefix) == [header[..0]] + [token];
  }

  /**
   * Resolve-or-create (api/comments.ts:83-93): `getPostId(slug)`, and when it
   * gives no id, `createPost(slug)`.
   */
  function ResolvePost(db: Db, slug: string, lookupFails: bool, createFault: Option<string>): (w: Written<nat>)
    ensures Valid(db) ==> Valid(w.db)
    ensures w.reply.Error? ==> w.db == db
    // the id resolved is the post filed under the slug afterwards
    ensures w.reply.Data? ==> slug in w.db.posts && w.db.posts[slug] == w.reply.value
    // a post the lookup finds is reused, without a call to createPost
    ensures slug in db.posts && !lookupFails ==> w == Written(db, Data(db.posts[slug]))
    // a slug that has a post never gets a second one
    ensures slug in db.posts ==> w.db == db
    // a slug without a post gets one exactly when the store accepts the write
    ensures slug !in db.posts ==>
              (w.reply.Data? <==> createFault.None?) &&
              (w.reply.Data? ==> w.db.posts.Keys == db.posts.Keys + {slug})
    ensures w.db.threads == db.threads && w.db.users == db.users
  {
    var found := if !lookupFails && slug in db.posts then Some(db.posts[slug]) else None;
    match found
    case Some(id) => Written(db, Data(id))
    case None => CreatePost(db, slug, createFault)
  }

  /** Resolving a slug again, once it has resolved, gives the same post and creates nothing. */
  lemma ResolveAgainReuses(db: Db, slug: string, lookupFails: bool, first: Option<string>, again: Option<string>)
    requires ResolvePost(db, slug, lookupFails, first).reply.Data?
    ensures var w := ResolvePost(db, slug, lookupFails, first);
            ResolvePost(w.db, slug, false, again) == w
  {
  }

  /**
   * Two first POSTs for one slug whose lookups both ran before either created
   * the post: the second creation is refused, so the slug keeps one post.
   */
  lemma RacingFirstPostsMakeOnePost(db: Db, slug: string, first: Option<string>, second: Option<string>)
    requires slug !in db.posts && first.None?
    ensures var w1 := ResolvePost(db, slug, false, first);
            var w2 := ResolvePost(w1.db, slug, true, second);
            w2.reply.Error? && w2.db == w1.db && |w1.db.posts.Keys| == |db.posts.Keys| + 1
  {
    var w1 := ResolvePost(db, slug, false, first);
    assert w1.db.posts.Keys == db.posts.Keys + {slug};
  }

  /**
   * The members of `Object.prototype`: a plain `{}` has each of them as an
   * inherited property whose value is truthy.
   */
  const ObjectPrototypeMembers: set<string> := {
    "constructor", "hasOwnProperty", "isPrototypeOf", "propertyIsEnumerable",
    "toLocaleString", "toString", "valueOf", "__proto__",
    "__defineGetter__", "__defineSetter__", "__lookupGetter__", "__lookupSetter__" }

  /**
   * The cache test `if (commentsCache[postslug])` as written: the cache is a
   * plain object, so an inherited member counts as a hit as well.
   */
  predicate CacheHitAsWritten(cache: map<string, seq<Comment>>, slug: string) {
    slug in cache || slug in ObjectPrototypeMembers
  }

  /**
   * The cache lookup as intended: a hit exactly when the slug has an entry of
   * its own (an empty list included), and the hit is that entry.
   */
  function CachedComments(cache: map<string, seq<Comment>>, slug: string): (r: Option<seq<Comment>>)
    ensures r.Some? <==> slug in cache
    ensures r.Some? ==> r.value == cache[slug]
  {
    if slug in cache then Some(cache[slug]) else None
  }

  /**
   * On an empty cache, the slug "constructor" is a hit as written, while the
   * intended lookup misses and reads the store.
   */
  lemma ConstructorSlugHitsEmptyCache()
    ensures var empty: map<string, seq<Comment>> := map[];
            CacheHitAsWritten(empty, "constructor") && CachedComments(empty, "constructor").None?
  {
  }

  /**
   * Off the `Object.prototype` names, the cache test as written and the
   * intended lookup agree on every cache.
   */
  lemma AsWrittenAgreesOffPrototype(cache: map<string, seq<Comment>>, slug: string)
    requires slug !in ObjectPrototypeMembers
    ensures CacheHitAsWritten(cache, slug) <==> CachedComments(cache, slug).Some?
  {
  }

  /** The request is a pre-flight that passed validation. */
  predicate IsPreflight(req: CommentsRequest) {
    req.validation.Accepted? && req.verb == "OPTIONS"
  }

  /** The request takes the POST branch: a POST with a non-empty slug. */
  predicate IsWrite(req: CommentsRequest) {
    req.validation.Accepted? && req.verb == "POST" && req.slug != ""
  }

  /** Every other accepted request, a POST without a slug included, takes the GET branch. */
  predicate IsRead(req: CommentsRequest) {
    req.validation.Accepted? && req.verb != "OPTIONS" && !IsWrite(req)
  }

  /** A POST whose token is present, whose secret is set and whose token verified. */
  predicate Authenticated(req: CommentsRequest, jwtSecret: Option<string>, verdict: Option<nat>) {
    Truthy(BearerToken(req.authorization)) && Truthy(jwtSecret) && verdict.Some?
  }

  /** The process-wide state of api/comments.ts: `commentsCache`. */
  class CommentsHandler {
    var cache: map<string, seq<Comment>>

    constructor ()
      ensures cache == map[]
    {
      cache := map[];
    }

    /**
     * `commentsHandler(request, params)` against the store `db`; `verdict` is
     * what `verify(token, secret, "HS512")` yields (the token's userId, or a
     * failure) and `createdAt` the new comment's timestamp. Returns the
     * response and the store afterwards.
     */
    method Handle(req: CommentsRequest, jwtSecret: Option<string>, verdict: Option<nat>,
                  faults: StoreFaults, createdAt: string, db: Db) returns (resp: Response, db': Db)
      requires Valid(db)
      modifies this
      ensures Valid(db')
      // a rejected request: the validator's message and status, and no change
      ensures req.validation.Rejected? ==>
                && resp == Response(req.validation.status, ErrorField(req.validation.message), [])
                && cache == old(cache) && db' == db
      // a pre-flight: an empty object with the CORS headers, and no change
      ensures IsPreflight(req) ==>
                resp == Response(Ok, EmptyObject, PreflightHeaders()) && cache == old(cache) && db' == db
      // POST, in the order of the checks; every refusal leaves cache and store alone
      ensures IsWrite(req) && !Truthy(BearerToken(req.authorization)) ==>
                resp == Json(ErrorField("auth token is empty")) && cache == old(cache) && db' == db
      ensures IsWrite(req) && Truthy(BearerToken(req.authorization)) && !Truthy(jwtSecret) ==>
                resp == Response(ServerError, ErrorField(SecretNotSet), []) && cache == old(cache) && db' == db
      ensures IsWrite(req) && Truthy(BearerToken(req.authorization)) && Truthy(jwtSecret) && verdict.None? ==>
                resp == Response(BadRequest, ErrorField("invalid auth token"), []) &&
                cache == old(cache) && db' == db
      ensures IsWrite(req) && Authenticated(req, jwtSecret, verdict) ==>
                var resolved := ResolvePost(db, req.slug, faults.lookupFails, faults.createPost);
                if resolved.reply.Error? then
                  resp == Response(ServerError, ErrorField("couldn't create the post"), []) &&
                  cache == old(cache) && db' == db
                else
                  var written := CreateComment(resolved.db, resolved.reply.value, verdict.value,
                                               req.validation.comment, createdAt, faults.createComment);
                  if written.reply.Error? then
                    // the post just created stays; the cache is not touched
                    resp == Response(ServerError, ErrorObject(written.reply.message), []) &&
                    cache == old(cache) && db' == resolved.db
                  else
                    // exactly this slug's entry is dropped
                    resp == Response(Created, CommentData(written.reply.value), []) &&
                    cache == old(cache) - {req.slug} && db' == written.db
      // of the requests the validator accepts, only an authenticated write is answered 201
      ensures req.validation.Accepted? && resp.status == Created ==> IsWrite(req) && Authenticated(req, jwtSecret, verdict)
      // GET: the store is never written
      ensures IsRead(req) ==> db' == db
      ensures IsRead(req) && req.slug in old(cache) ==>
                resp == Json(CommentList(old(cache)[req.slug])) && cache == old(cache)
      ensures IsRead(req) && req.slug !in old(cache) ==>
                match ListComments(db, req.slug, faults.list)
                case ListError(message) => resp == Json(ErrorField(message)) && cache == old(cache)
                case Listed(comments) =>
                  resp == Json(CommentList(comments)) && cache == old(cache)[req.slug := comments]
    {
      db' := db;
      if req.validation.Rejected? {
        resp := Response(req.validation.status, ErrorField(req.validation.message), []);
        return;
      }

      if req.verb == "OPTIONS" {
        resp := Response(Ok, EmptyObject, PreflightHeaders());
        return;
      }

      if req.verb == "POST" && req.slug != "" {
        var token := BearerToken(req.authorization);
        if !Truthy(token) {
          resp := Json(ErrorField("auth token is empty"));
          return;
        }
        if !Truthy(jwtSecret) {
          resp := Response(ServerError, ErrorField(SecretNotSet), []);
          return;
        }
        if verdict.None? {
          resp := Response(BadRequest, ErrorField("invalid auth token"), []);
          return;
        }
        var userId := verdict.value;

        var resolved := ResolvePost(db, req.slug, faults.lookupFails, faults.createPost);
        if resolved.reply.Error? {
          resp := Response(ServerError, ErrorField("couldn't create the post"), []);
          return;
        }
        var postId := resolved.reply.value;
        db' := resolved.db;

        var written := CreateComment(db', postId, userId, req.validation.comment, createdAt, faults.createComment);
        if written.reply.Error? {
          resp := Response(ServerError, ErrorObject(written.reply.message), []);
          return;
        }
        db' := written.db;
        cache := cache - {req.slug};
        resp := Response(Created, CommentData(written.reply.value), []);
        return;
      }

      var hit := CachedComments(cache, req.slug);
      if hit.Some? {
        resp := Json(CommentList(hit.value));
        return;
      }

      var listing := ListComments(db, req.slug, faults.list);
      match listing {
        case ListError(message) =>
          resp := Json(ErrorField(message));
        case Listed(comments) =>
          cache := cache[req.slug := comments];
          resp := Json(CommentList(comments));
      }
    }
  }

  /**
   * A GET for a slug the cache does not hold, answered by the store: the
   * listing is served and cached under the slug.
   */
  method ReadThrough(handler: CommentsHandler, slug: string, jwtSecret: Option<string>, faults: StoreFaults,
                     createdAt: string, db: Db, ghost listed: seq<Comment>)
    returns (read: Response)
    requires Valid(db)
    requires slug !in handler.cache && ListComments(db, slug, faults.list) == Listed(listed)
    modifies handler
    ensures read == Response(Ok, CommentList(listed), [])
    ensures handler.cache == old(handler.cache)[slug := listed]
  {
    var getReq := CommentsRequest("GET", slug, None, Accepted(""));
    var afterGet;
    read, afterGet := handler.Handle(getReq, jwtSecret, None, faults, createdAt, db);
    assert IsRead(getReq);
  }

  /**
   * A POST that is answered 201: the slug's cache entry is gone and the
   * store now lists the slug's thread with the new comment last.
   */
  method PostThenList(handler: CommentsHandler, slug: string, authorization: string, text: string,
                      jwtSecret: Option<string>, userId: nat, faults: StoreFaults, createdAt: string, db: Db)
    returns (posted: Response, afterPost: Db, ghost listed: seq<Comment>)
    requires Valid(db)
    modifies handler
    ensures Valid(afterPost)
    ensures posted.status == Created ==>
              && posted.body.CommentData?
              && slug !in handler.cache
              && ListComments(afterPost, slug, None) == Listed(listed)
              && |listed| > 0 && listed[|listed| - 1] == posted.body.comment
  {
    var postReq := CommentsRequest("POST", slug, Some(authorization), Accepted(text));
    posted, afterPost := handler.Handle(postReq, jwtSecret, Some(userId), faults, createdAt, db);
    listed := [];
    if posted.status == Created {
      var resolved := ResolvePost(db, slug, faults.lookupFails, faults.createPost);
      var written := CreateComment(resolved.db, resolved.reply.value, userId, text, createdAt, faults.createComment);
      assert resolved.reply.Data? && written.reply.Data?;
      assert afterPost == written.db;
      CreatedCommentListedLast(resolved.db, slug, userId, text, createdAt);
      listed := Thread(resolved.db, resolved.reply.value) + [written.reply.value];
    }
  }

  /**
   * Read your writes: a POST that succeeds, then a GET for the same slug that
   * the store answers, returns the list with the new comment as its last
   * element; the GET does not serve the list cached before the POST.
   */
  method ReadYourWrites(handler: CommentsHandler, slug: string, authorization: string, text: string,
                        jwtSecret: Option<string>, userId: nat, faults: StoreFaults, createdAt: string, db: Db)
    returns (posted: Response, read: Response)
    requires Valid(db)
    modifies handler
    ensures posted.status == Created ==>
              && posted.body.CommentData?
              && read.status == Ok && read.body.CommentList?
              && |read.body.comments| > 0
              && read.body.comments[|read.body.comments| - 1] == posted.body.comment
  {
    var afterPost;
    ghost var listed;
    posted, afterPost, listed := PostThenList(handler, slug, authorization, text, jwtSecret, userId, faults, createdAt, db);
    if posted.status == Created {
      read := ReadThrough(handler, slug, jwtSecret, faults.(list := None), createdAt, afterPost, listed);
    } else {
      var afterGet;
      read, afterGet := handler.Handle(CommentsRequest("GET", slug, None, Accepted("")),
                                       jwtSecret, None, faults.(list := None), createdAt, afterPost);
    }
  }

  /**
   * The first GET a fresh process serves, against a store with no posts yet:
   * the cache misses, the store has no post under the slug, and the answer is
   * a 200 carrying the store's "not found" message, not an empty list.
   */
  method FirstReadOfEmptyStore(slug: string, jwtSecret: Option<string>, createdAt: string)
    returns (read: Response)
    ensures read == Response(Ok, ErrorField(NotFound), [])
  {
    var handler := new CommentsHandler();
    var afterGet;
    read, afterGet := handler.Handle(CommentsRequest("GET", slug, None, Accepted("")), jwtSecret, None,
                                     StoreFaults(false, None, None, None), createdAt, EmptyDb());
  }
}
