/**
 * An in-memory stand-in for the document store behind the handlers: three
 * collections, each a sequence of records in insertion order, and a counter
 * that supplies a fresh identifier to every insert. Inserting a record does
 * not look at the other records; in particular it does not enforce unique
 * emails or slugs.
 */
module Database {
  import opened Wrappers
  import opened Bson
  import opened Schemas

  /** A record as the store keeps it: the identifier and creation time it assigned, then the fields. */
  datatype Stored<T> = Stored(id: ObjectId, createdAt: Timestamp, record: T)

  /** A post as it reads back from the store: its publication time cut to the millisecond. */
  function StoredPost(p: BlogPost): (r: BlogPost)
    ensures r.(publishedAt := p.publishedAt) == p
    ensures r.publishedAt.None? <==> p.publishedAt.None?
    ensures r.publishedAt.Some? ==>
      && r.publishedAt.value.microsecond % 1000 == 0
      && r.publishedAt.value.(microsecond := p.publishedAt.value.microsecond) == p.publishedAt.value
      && r.publishedAt.value.microsecond <= p.publishedAt.value.microsecond < r.publishedAt.value.microsecond + 1000
  {
    match p.publishedAt
    case None => p
    case Some(t) => p.(publishedAt := Some(ToMillis(t)))
  }

  /** Identifiers increase along a collection and stay below the next one to be handed out. */
  ghost predicate IdsIssued<T>(s: seq<Stored<T>>, next: ObjectId) {
    && (forall i, j :: 0 <= i < j < |s| ==> s[i].id < s[j].id)
    && (forall i :: 0 <= i < |s| ==> s[i].id < next)
  }

  class Store {
    var users: seq<Stored<User>>
    var posts: seq<Stored<BlogPost>>
    var messages: seq<Stored<ContactMessage>>
    var nextId: ObjectId

    ghost predicate Valid()
      reads this
    {
      IdsIssued(users, nextId) && IdsIssued(posts, nextId) && IdsIssued(messages, nextId)
    }

    constructor ()
      ensures Valid()
      ensures users == [] && posts == [] && messages == []
    {
      users, posts, messages := [], [], [];
      nextId := 0;
    }

    /**
     * Inserts into "user" and returns the new identifier's string form. The
     * creation time is kept to the millisecond, as BSON keeps datetimes.
     */
    method InsertUser(u: User, insertedAt: Timestamp) returns (id: string)
      requires Valid()
      modifies this
      ensures Valid()
      ensures users == old(users) + [Stored(old(nextId), ToMillis(insertedAt), u)]
      ensures posts == old(posts) && messages == old(messages)
      ensures nextId == old(nextId) + 1
      ensures id == IdString(old(nextId))
    {
      users := users + [Stored(nextId, ToMillis(insertedAt), u)];
      id := IdString(nextId);
      nextId := nextId + 1;
    }

    /**
     * Inserts into "blogpost" and returns the new identifier's string form.
     * The creation and publication times are kept to the millisecond.
     */
    method InsertPost(p: BlogPost, insertedAt: Timestamp) returns (id: string)
      requires Valid()
      modifies this
      ensures Valid()
      ensures posts == old(posts) + [Stored(old(nextId), ToMillis(insertedAt), StoredPost(p))]
      ensures users == old(users) && messages == old(messages)
      ensures nextId == old(nextId) + 1
      ensures id == IdString(old(nextId))
    {
      posts := posts + [Stored(nextId, ToMillis(insertedAt), StoredPost(p))];
      id := IdString(nextId);
      nextId := nextId + 1;
    }

    /**
     * Inserts into "contactmessage" and returns the new identifier's string
     * form. The creation time is kept to the millisecond.
     */
    method InsertMessage(m: ContactMessage, insertedAt: Timestamp) returns (id: string)
      requires Valid()
      modifies this
      ensures Valid()
      ensures messages == old(messages) + [Stored(old(nextId), ToMillis(insertedAt), m)]
      ensures users == old(users) && posts == old(posts)
      ensures nextId == old(nextId) + 1
      ensures id == IdString(old(nextId))
    {
      messages := messages + [Stored(nextId, ToMillis(insertedAt), m)];
      id := IdString(nextId);
      nextId := nextId + 1;
    }
  }

  /** Position `i` holds the first user with this email. */
  predicate FirstWithEmail(users: seq<Stored<User>>, email: string, i: int) {
    && 0 <= i < |users|
    && users[i].record.email == email
    && forall j :: 0 <= j < i ==> users[j].record.email != email
  }

  /** Position `i` holds the first post with this slug. */
  predicate FirstWithSlug(posts: seq<Stored<BlogPost>>, slug: string, i: int) {
    && 0 <= i < |posts|
    && posts[i].record.slug == slug
    && forall j :: 0 <= j < i ==> posts[j].record.slug != slug
  }

  /** `find_one({"email": email})` on "user": where the first user with that email sits. */
  function FindUserByEmail(users: seq<Stored<User>>, email: string): (r: Option<nat>)
    ensures r.None? <==> forall i :: 0 <= i < |users| ==> users[i].record.email != email
    ensures r.Some? ==> FirstWithEmail(users, email, r.value)
  {
    if users == [] then None
    else if users[0].record.email == email then Some(0)
    else
      match FindUserByEmail(users[1..], email)
      case None => None
      case Some(i) => Some(i + 1)
  }

  /** `find_one({"slug": slug})` on "blogpost": where the first post with that slug sits. */
  function FindPostBySlug(posts: seq<Stored<BlogPost>>, slug: string): (r: Option<nat>)
    ensures r.None? <==> forall i :: 0 <= i < |posts| ==> posts[i].record.slug != slug
    ensures r.Some? ==> FirstWithSlug(posts, slug, r.value)
  {
    if posts == [] then None
    else if posts[0].record.slug == slug then Some(0)
    else
      match FindPostBySlug(posts[1..], slug)
      case None => None
      case Some(i) => Some(i + 1)
  }

  /** `get_documents("blogpost", {"published": True})`: the published posts, in store order. */
  function PublishedPosts(posts: seq<Stored<BlogPost>>): (r: seq<Stored<BlogPost>>)
    ensures forall x :: multiset(r)[x] == if x.record.published then multiset(posts)[x] else 0
  {
    if posts == [] then []
    else
      assert posts == [posts[0]] + posts[1..];
      (if posts[0].record.published then [posts[0]] else []) + PublishedPosts(posts[1..])
  }

  /** A stored post as the store returns it: its fields plus `_id` and `created_at`. */
  function PostDocument(sp: Stored<BlogPost>): (d: Document)
    ensures "_id" in d && d["_id"] == OidVal(sp.id)
    ensures "created_at" in d && d["created_at"] == DateVal(sp.createdAt)
    ensures forall k :: k in PostFields(sp.record) ==> k in d && d[k] == PostFields(sp.record)[k]
    ensures d.Keys == PostFields(sp.record).Keys + {"_id", "created_at"}
  {
    PostFields(sp.record)["_id" := OidVal(sp.id)]["created_at" := DateVal(sp.createdAt)]
  }

  /** No two users share an email. The store does not keep this; the signup handler does. */
  predicate EmailsUnique(users: seq<Stored<User>>) {
    forall i, j :: 0 <= i < j < |users| ==> users[i].record.email != users[j].record.email
  }

  /** No two posts share a slug. The store does not keep this; the create handler does. */
  predicate SlugsUnique(posts: seq<Stored<BlogPost>>) {
    forall i, j :: 0 <= i < j < |posts| ==> posts[i].record.slug != posts[j].record.slug
  }
}
