/**
 * The request handlers: signup and signin over the "user" collection, the
 * blog listing, lookup and creation over "blogpost", and the contact form
 * over "contactmessage". Handlers that only read take the collection's
 * contents; handlers that insert take the store. The clock is a parameter:
 * `utcNow` is the handler's own reading, `insertedAt` the one the store
 * stamps as `created_at`.
 */
module Api {
  import opened Wrappers
  import opened Bson
  import opened Schemas
  import opened Database
  import opened Serialize
  import opened StableSort

  /** An HTTPException: the status code and its detail text. */
  datatype HttpError = HttpError(status: nat, detail: string)

  datatype SignUpPayload = SignUpPayload(name: string, email: EmailStr, passwordHash: string, salt: string)

  datatype SignInPayload = SignInPayload(email: EmailStr, passwordHash: string)

  datatype CreatePostPayload = CreatePostPayload(
    title: string,
    slug: string,
    excerpt: Option<string> := None,
    content: string,
    author: string,
    tags: Option<seq<string>> := None,
    published: bool := true)

  datatype ContactPayload = ContactPayload(
    name: string,
    email: EmailStr,
    message: string,
    subject: Option<string> := None)

  /** What the create payload fills in when a client leaves out its optional fields. */
  lemma CreatePostPayloadDefaults(title: string, slug: string, content: string, author: string)
    ensures var p := CreatePostPayload(title := title, slug := slug, content := content, author := author);
      && p.excerpt == None
      && p.tags == None
      && p.published
  {
  }

  /** The contact payload's subject is absent unless the client sends one. */
  lemma ContactPayloadDefaults(name: string, email: EmailStr, message: string)
    ensures ContactPayload(name := name, email := email, message := message).subject == None
  {
  }

  /** `{id, email, name}`: what both signup and signin answer. */
  datatype Account = Account(id: string, email: string, name: string)

  /** `{id, slug}`. */
  datatype PostCreated = PostCreated(id: string, slug: string)

  /** `{id, status}`. */
  datatype ContactReceived = ContactReceived(id: string, status: string)

  /** The next identifier's string form is not that of any record already stored. */
  lemma FreshIdString<T>(s: seq<Stored<T>>, next: ObjectId)
    requires forall i :: 0 <= i < |s| ==> s[i].id < next
    ensures forall i :: 0 <= i < |s| ==> IdString(next) != IdString(s[i].id)
  {
    forall i | 0 <= i < |s| ensures IdString(next) != IdString(s[i].id) {
      IdStringInjective(next, s[i].id);
    }
  }

  predicate EmailRegistered(users: seq<Stored<User>>, email: string) {
    exists i :: 0 <= i < |users| && users[i].record.email == email
  }

  predicate SlugTaken(posts: seq<Stored<BlogPost>>, slug: string) {
    exists i :: 0 <= i < |posts| && posts[i].record.slug == slug
  }

  // ---------------------------------------------------------------------------
  // Auth
  // ---------------------------------------------------------------------------

  /**
   * POST /auth/signup: refuses an email that is already registered, otherwise
   * stores the user as given and echoes its new id, email and name.
   */
  method SignUp(store: Store, p: SignUpPayload, insertedAt: Timestamp) returns (r: Result<Account, HttpError>)
    requires store.Valid()
    modifies store
    ensures store.Valid()
    ensures store.posts == old(store.posts) && store.messages == old(store.messages)
    ensures EmailRegistered(old(store.users), p.email) ==>
      && r == Err(HttpError(400, "Email already registered"))
      && store.users == old(store.users)
      && store.nextId == old(store.nextId)
    ensures !EmailRegistered(old(store.users), p.email) ==>
      && store.users == old(store.users)
           + [Stored(old(store.nextId), ToMillis(insertedAt), User(p.name, p.email, p.passwordHash, p.salt))]
      && r == Ok(Account(IdString(old(store.nextId)), p.email, p.name))
    ensures r.Ok? ==> forall i :: 0 <= i < |old(store.users)| ==> r.value.id != IdString(old(store.users)[i].id)
    ensures EmailsUnique(old(store.users)) ==> EmailsUnique(store.users)
  {
    if FindUserByEmail(store.users, p.email).Some? {
      return Err(HttpError(400, "Email already registered"));
    }
    FreshIdString(store.users, store.nextId);
    var user := User(name := p.name, email := p.email, passwordHash := p.passwordHash, salt := p.salt);
    var id := store.InsertUser(user, insertedAt);
    r := Ok(Account(id, p.email, p.name));
  }

  /**
   * POST /auth/signin: 404 for an unknown email, 401 when the first user with
   * that email has a different password hash, otherwise that user's id, email
   * and name. Nothing is written.
   */
  function SignIn(users: seq<Stored<User>>, p: SignInPayload): (r: Result<Account, HttpError>)
    ensures r == Err(HttpError(404, "User not found")) <==> !EmailRegistered(users, p.email)
    ensures forall i | FirstWithEmail(users, p.email, i) ::
      r == if users[i].record.passwordHash == p.passwordHash
           then Ok(Account(IdString(users[i].id), users[i].record.email, users[i].record.name))
           else Err(HttpError(401, "Invalid credentials"))
  {
    match FindUserByEmail(users, p.email)
    case None => Err(HttpError(404, "User not found"))
    case Some(i) =>
      var u := users[i];
      if u.record.passwordHash != p.passwordHash then Err(HttpError(401, "Invalid credentials"))
      else Ok(Account(IdString(u.id), u.record.email, u.record.name))
  }

  /** Signing in with the credentials just registered answers what the signup answered. */
  lemma SignInAfterSignUp(users: seq<Stored<User>>, id: ObjectId, at: Timestamp, u: User)
    requires !EmailRegistered(users, u.email)
    ensures var after := users + [Stored(id, at, u)];
      && SignIn(after, SignInPayload(u.email, u.passwordHash)) == Ok(Account(IdString(id), u.email, u.name))
      && forall h :: h != u.passwordHash ==>
           SignIn(after, SignInPayload(u.email, h)) == Err(HttpError(401, "Invalid credentials"))
  {
    var after := users + [Stored(id, at, u)];
    assert after[|users|].record == u;
    assert forall j | 0 <= j < |users| :: after[j].record.email != u.email by {
      forall j | 0 <= j < |users| ensures after[j].record.email != u.email {
        assert after[j] == users[j];
      }
    }
  }

  /** Once registered, an email stays registered: a second signup with it is refused. */
  lemma SignUpOnce(users: seq<Stored<User>>, id: ObjectId, at: Timestamp, u: User)
    ensures EmailRegistered(users + [Stored(id, at, u)], u.email)
  {
    assert (users + [Stored(id, at, u)])[|users|].record.email == u.email;
  }

  // ---------------------------------------------------------------------------
  // Blog
  // ---------------------------------------------------------------------------

  /** `x.get("published_at") or x.get("created_at")`. */
  function SortDate(p: Stored<BlogPost>): Timestamp {
    match p.record.publishedAt
    case Some(t) => t
    case None => p.createdAt
  }

  /** The listing's sort key, as a number that orders like the datetimes do. */
  function Recency(p: Stored<BlogPost>): int {
    Ordinal(SortDate(p))
  }

  /** The published posts in the order GET /blog lists them. */
  function Listing(posts: seq<Stored<BlogPost>>): seq<Stored<BlogPost>> {
    SortDescending(PublishedPosts(posts), Recency)
  }

  /**
   * GET /blog: fetches the published posts, sorts them newest first in place
   * and serializes each one.
   */
  method ListPosts(posts: seq<Stored<BlogPost>>) returns (out: seq<Document>)
    ensures |out| == |Listing(posts)|
    ensures forall i :: 0 <= i < |out| ==> out[i] == Serialized(PostDocument(Listing(posts)[i]))
  {
    var found := PublishedPosts(posts);
    var a := new Stored<BlogPost>[|found|](i requires 0 <= i < |found| => found[i]);
    assert a[..] == found;
    SortInPlace(a, Recency);
    var sorted := a[..];
    assert sorted == Listing(posts);
    out := SerializeEach(seq(|sorted|, i requires 0 <= i < |sorted| => PostDocument(sorted[i])));
  }

  /**
   * What the listing holds: exactly the published posts, each as often as it
   * is stored; no post follows one with an earlier date; and posts with the
   * same date keep the order the store returned them in.
   */
  lemma ListingIsNewestFirst(posts: seq<Stored<BlogPost>>)
    ensures var listed := Listing(posts);
      && (forall x :: multiset(listed)[x] == if x.record.published then multiset(posts)[x] else 0)
      && (forall i, j :: 0 <= i < j < |listed| ==> !Before(SortDate(listed[i]), SortDate(listed[j])))
      && (forall k :: WithKey(listed, Recency, k) == WithKey(PublishedPosts(posts), Recency, k))
  {
    var found := PublishedPosts(posts);
    var listed := Listing(posts);
    SortDescendingIsStable(found, Recency);
    StablySortedPermutes(found, listed, Recency);
    forall i, j | 0 <= i < j < |listed| ensures !Before(SortDate(listed[i]), SortDate(listed[j])) {
      assert Recency(listed[i]) >= Recency(listed[j]);
      OrdinalOrder(SortDate(listed[i]), SortDate(listed[j]));
    }
  }

  /**
   * GET /blog/{slug}: the first post with that slug, published or not,
   * serialized; 404 when no post has it.
   */
  function GetPost(posts: seq<Stored<BlogPost>>, slug: string): (r: Result<Document, HttpError>)
    ensures r == Err(HttpError(404, "Post not found")) <==> !SlugTaken(posts, slug)
    ensures forall i | FirstWithSlug(posts, slug, i) ::
      r == Ok(Serialized(PostDocument(posts[i])))
  {
    match FindPostBySlug(posts, slug)
    case None => Err(HttpError(404, "Post not found"))
    case Some(i) => Ok(Serialized(PostDocument(posts[i])))
  }

  /** `payload.tags or []`: missing tags and an empty list both become the empty list. */
  function TagsOrEmpty(tags: Option<seq<string>>): (r: seq<string>)
    ensures r == match tags case None => [] case Some(t) => t
  {
    if tags.Some? && tags.value != [] then tags.value else []
  }

  /** The post that POST /blog stores for a payload. */
  function NewPost(p: CreatePostPayload, utcNow: Timestamp): BlogPost {
    BlogPost(
      title := p.title,
      slug := p.slug,
      excerpt := p.excerpt,
      content := p.content,
      author := p.author,
      tags := TagsOrEmpty(p.tags),
      published := p.published,
      publishedAt := if p.published then Some(utcNow) else None)
  }

  /**
   * POST /blog: refuses a slug that is already taken, otherwise stores the
   * post, with a publication time only when it is published.
   */
  method CreatePost(store: Store, p: CreatePostPayload, utcNow: Timestamp, insertedAt: Timestamp)
    returns (r: Result<PostCreated, HttpError>)
    requires store.Valid()
    modifies store
    ensures store.Valid()
    ensures store.users == old(store.users) && store.messages == old(store.messages)
    ensures SlugTaken(old(store.posts), p.slug) ==>
      && r == Err(HttpError(400, "Slug already exists"))
      && store.posts == old(store.posts)
      && store.nextId == old(store.nextId)
    ensures !SlugTaken(old(store.posts), p.slug) ==>
      && store.posts == old(store.posts)
           + [Stored(old(store.nextId), ToMillis(insertedAt), StoredPost(NewPost(p, utcNow)))]
      && r == Ok(PostCreated(IdString(old(store.nextId)), p.slug))
    ensures r.Ok? ==> forall i :: 0 <= i < |old(store.posts)| ==> r.value.id != IdString(old(store.posts)[i].id)
    ensures SlugsUnique(old(store.posts)) ==> SlugsUnique(store.posts)
  {
    if FindPostBySlug(store.posts, p.slug).Some? {
      return Err(HttpError(400, "Slug already exists"));
    }
    FreshIdString(store.posts, store.nextId);
    var post := NewPost(p, utcNow);
    var id := store.InsertPost(post, insertedAt);
    r := Ok(PostCreated(id, p.slug));
  }

  /**
   * The stored post carries the payload's fields, the tags it was given (or
   * none), and a publication time exactly when it is published.
   */
  lemma NewPostFields(p: CreatePostPayload, utcNow: Timestamp)
    ensures var post := NewPost(p, utcNow);
      && post.title == p.title && post.slug == p.slug && post.excerpt == p.excerpt
      && post.content == p.content && post.author == p.author
      && post.published == p.published
      && (post.publishedAt.Some? <==> p.published)
      && (p.published ==> post.publishedAt == Some(utcNow))
      && (p.tags.None? ==> post.tags == [])
      && (p.tags.Some? ==> post.tags == p.tags.value)
      && StoredPost(post).publishedAt == (if p.published then Some(ToMillis(utcNow)) else None)
  {
  }

  /** A post just created can be fetched by its slug, whether or not it is published. */
  lemma GetPostAfterCreate(posts: seq<Stored<BlogPost>>, id: ObjectId, at: Timestamp, post: BlogPost)
    requires !SlugTaken(posts, post.slug)
    ensures GetPost(posts + [Stored(id, at, post)], post.slug) == Ok(Serialized(PostDocument(Stored(id, at, post))))
  {
    var after := posts + [Stored(id, at, post)];
    assert after[|posts|].record.slug == post.slug;
    assert forall j | 0 <= j < |posts| :: after[j].record.slug != post.slug by {
      forall j | 0 <= j < |posts| ensures after[j].record.slug != post.slug {
        assert after[j] == posts[j];
      }
    }
  }

  /** A stored post, serialized, answers with its identifier's string form under "id". */
  lemma SerializedPostId(sp: Stored<BlogPost>)
    ensures var d := Serialized(PostDocument(sp));
      "id" in d && d["id"] == StrVal(IdString(sp.id))
  {
    assert PostDocument(sp)["_id"] == OidVal(sp.id);
  }

  /** An unpublished post is never listed. */
  lemma UnpublishedNotListed(posts: seq<Stored<BlogPost>>, x: Stored<BlogPost>)
    requires !x.record.published
    ensures x !in Listing(posts)
  {
    ListingIsNewestFirst(posts);
    assert multiset(Listing(posts))[x] == 0;
  }

  // ---------------------------------------------------------------------------
  // Contact
  // ---------------------------------------------------------------------------

  /** POST /contact: always stores the message as given and answers "received". */
  method SubmitContact(store: Store, p: ContactPayload, insertedAt: Timestamp) returns (r: ContactReceived)
    requires store.Valid()
    modifies store
    ensures store.Valid()
    ensures store.messages == old(store.messages)
      + [Stored(old(store.nextId), ToMillis(insertedAt), ContactMessage(p.name, p.email, p.message, p.subject))]
    ensures store.users == old(store.users) && store.posts == old(store.posts)
    ensures r == ContactReceived(IdString(old(store.nextId)), "received")
    ensures forall i :: 0 <= i < |old(store.messages)| ==> r.id != IdString(old(store.messages)[i].id)
  {
    FreshIdString(store.messages, store.nextId);
    var msg := ContactMessage(name := p.name, email := p.email, message := p.message, subject := p.subject);
    var id := store.InsertMessage(msg, insertedAt);
    r := ContactReceived(id, "received");
  }
}
