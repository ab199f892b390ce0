/**
 * The comment store the two handlers talk to, as an abstract value: posts
 * keyed by their slug, the comment thread of every post in insertion order,
 * and users keyed by their username. Every write either succeeds or reports
 * the store's error and leaves the store as it was. Identifiers are handed
 * out from one counter, so they are never reused.
 */
module Store {
  import opened Wrappers

  datatype Comment = Comment(id: nat, postId: nat, userId: nat, text: string, createdAt: string)

  /** The profile fields `createUser` is given. */
  datatype Profile = Profile(name: string, email: string, username: string, avatar: string)

  datatype User = User(id: nat, profile: Profile, createdAt: string)

  datatype Db = Db(
    posts: map<string, nat>,          // slug -> post id
    threads: map<nat, seq<Comment>>,  // post id -> its comments, oldest first
    users: map<string, User>,         // username -> user
    nextId: nat)

  /** A store call's `{data, error}`: the data, or an error message. */
  datatype Reply<T> = Data(value: T) | Error(message: string)

  /** The store after a write, and the write's reply. */
  datatype Written<T> = Written(db: Db, reply: Reply<T>)

  /** What `getCommentsOfPost` yields: the thread, or the store's error. */
  datatype Listing = Listed(comments: seq<Comment>) | ListError(message: string)

  /** The store's answer to a second post for a slug or a second user for a username. */
  const NotUnique: string := "Instance is not unique."

  /** The store's answer to a lookup of a slug that has no post. */
  const NotFound: string := "Instance not found."

  /**
   * Post ids are distinct and already handed out, every thread belongs to a
   * post, and every user is filed under its own username.
   */
  ghost predicate Valid(db: Db) {
    && (forall s :: s in db.posts ==> db.posts[s] < db.nextId)
    && (forall s, t :: s in db.posts && t in db.posts && s != t ==> db.posts[s] != db.posts[t])
    && (forall p :: p in db.threads ==> p in db.posts.Values)
    && (forall u :: u in db.users ==> db.users[u].profile.username == u && db.users[u].id < db.nextId)
  }

  function EmptyDb(): (db: Db)
    ensures Valid(db) && db.posts == map[] && db.users == map[]
  {
    Db(map[], map[], map[], 0)
  }

  /** The comments of a post, oldest first; none yet is the empty thread. */
  function Thread(db: Db, postId: nat): seq<Comment> {
    if postId in db.threads then db.threads[postId] else []
  }

  /** `createPost(slug)`. */
  function CreatePost(db: Db, slug: string, fault: Option<string>): (w: Written<nat>)
    ensures w.reply.Data? <==> fault.None? && slug !in db.posts
    ensures w.reply.Error? ==> w.db == db
    ensures w.reply.Data? && Valid(db) ==> w.reply.value !in db.posts.Values
    ensures w.reply.Data? ==>
              && w.db.posts == db.posts[slug := w.reply.value]
              && w.db.threads == db.threads && w.db.users == db.users
    ensures Valid(db) ==> Valid(w.db)
  {
    if fault.Some? then Written(db, Error(fault.value))
    else if slug in db.posts then Written(db, Error(NotUnique))
    else
      var id := db.nextId;
      var posts := db.posts[slug := id];
      assert forall p :: p in db.posts.Values ==> p in posts.Values by {
        forall p | p in db.posts.Values ensures p in posts.Values {
          var s' :| s' in db.posts && db.posts[s'] == p;
          assert posts[s'] == p;
        }
      }
      Written(db.(posts := posts, nextId := id + 1), Data(id))
  }

  /** `createComment({postId, userId, comment})` on an existing post. */
  function CreateComment(db: Db, postId: nat, userId: nat, text: string, createdAt: string,
                         fault: Option<string>): (w: Written<Comment>)
    requires postId in db.posts.Values
    ensures w.reply.Data? <==> fault.None?
    ensures w.reply.Error? ==> w.db == db
    ensures w.reply.Data? ==>
              var c := w.reply.value;
              && c.postId == postId && c.userId == userId && c.text == text && c.createdAt == createdAt
              && Thread(w.db, postId) == Thread(db, postId) + [c]
              && (forall p :: p != postId ==> Thread(w.db, p) == Thread(db, p))
              && w.db.posts == db.posts && w.db.users == db.users
    ensures Valid(db) ==> Valid(w.db)
  {
    if fault.Some? then Written(db, Error(fault.value))
    else
      var c := Comment(db.nextId, postId, userId, text, createdAt);
      Written(db.(threads := db.threads[postId := Thread(db, postId) + [c]], nextId := db.nextId + 1),
              Data(c))
  }

  /** `getCommentsOfPost(slug)`. */
  function ListComments(db: Db, slug: string, fault: Option<string>): (r: Listing)
    ensures r.Listed? <==> fault.None? && slug in db.posts
    ensures r.Listed? ==> r.comments == Thread(db, db.posts[slug])
    ensures fault.Some? ==> r == ListError(fault.value)
    ensures fault.None? && slug !in db.posts ==> r == ListError(NotFound)
  {
    if fault.Some? then ListError(fault.value)
    else if slug !in db.posts then ListError(NotFound)
    else Listed(Thread(db, db.posts[slug]))
  }

  /** The user looked up by username; a failed lookup finds nobody. */
  function FindUser(db: Db, username: string, lookupFails: bool): (r: Option<User>)
    ensures r.Some? <==> !lookupFails && username in db.users
    ensures r.Some? ==> r.value == db.users[username]
  {
    if lookupFails || username !in db.users then None else Some(db.users[username])
  }

  /** `createUser({name, email, username, avatar, createdAt})`. */
  function CreateUser(db: Db, profile: Profile, createdAt: string, fault: Option<string>): (w: Written<User>)
    ensures w.reply.Data? <==> fault.None? && profile.username !in db.users
    ensures w.reply.Error? ==> w.db == db
    ensures w.reply.Data? ==>
              && w.reply.value.profile == profile
              && w.db.users == db.users[profile.username := w.reply.value]
              && w.db.posts == db.posts && w.db.threads == db.threads
    ensures Valid(db) ==> Valid(w.db)
  {
    if fault.Some? then Written(db, Error(fault.value))
    else if profile.username in db.users then Written(db, Error(NotUnique))
    else
      var u := User(db.nextId, profile, createdAt);
      Written(db.(users := db.users[profile.username := u], nextId := db.nextId + 1), Data(u))
  }

  /**
   * Insertion order: right after a comment is created on the post of `slug`,
   * listing that slug gives the earlier thread with the new comment last, and
   * every other slug lists what it listed before.
   */
  lemma CreatedCommentListedLast(db: Db, slug: string, userId: nat, text: string, createdAt: string)
    requires Valid(db) && slug in db.posts
    ensures var w := CreateComment(db, db.posts[slug], userId, text, createdAt, None);
            && ListComments(w.db, slug, None) == Listed(Thread(db, db.posts[slug]) + [w.reply.value])
            && forall other :: other != slug ==> ListComments(w.db, other, None) == ListComments(db, other, None)
  {
    var w := CreateComment(db, db.posts[slug], userId, text, createdAt, None);
    forall other | other != slug
      ensures ListComments(w.db, other, None) == ListComments(db, other, None)
    {
      if other in db.posts {
        assert db.posts[other] != db.posts[slug];
      }
    }
  }
}
