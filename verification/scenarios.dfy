/**
 * Request sequences a client of the service relies on, run against one
 * store: each method only calls the handlers and states what the client sees.
 */
module Scenarios {
  import opened Wrappers
  import opened Bson
  import opened Schemas
  import opened Database
  import opened Serialize
  import opened Api

  /**
   * Signing up with a new email and then signing in with the same hash
   * answers with the account the signup returned; a second signup with that
   * email is refused, whatever its other fields.
   */
  method SignUpSignInSignUp(store: Store, p: SignUpPayload, q: SignUpPayload, t1: Timestamp, t2: Timestamp)
    returns (first: Result<Account, HttpError>, login: Result<Account, HttpError>,
             again: Result<Account, HttpError>)
    requires store.Valid() && !EmailRegistered(store.users, p.email) && q.email == p.email
    modifies store
    ensures first.Ok? && login == first
    ensures again == Err(HttpError(400, "Email already registered"))
  {
    ghost var before, id := store.users, store.nextId;
    var u := User(p.name, p.email, p.passwordHash, p.salt);
    first := SignUp(store, p, t1);
    SignInAfterSignUp(before, id, ToMillis(t1), u);
    login := SignIn(store.users, SignInPayload(p.email, p.passwordHash));
    SignUpOnce(before, id, ToMillis(t1), u);
    again := SignUp(store, q, t2);
  }

  /**
   * Creating two posts with the same slug: the second is refused and the
   * first can still be fetched, as the store keeps it.
   */
  method CreateTwice(store: Store, p: CreatePostPayload, q: CreatePostPayload, now: Timestamp,
                     t1: Timestamp, t2: Timestamp)
    returns (first: Result<PostCreated, HttpError>, second: Result<PostCreated, HttpError>)
    requires store.Valid() && !SlugTaken(store.posts, p.slug) && q.slug == p.slug
    modifies store
    ensures first.Ok? && first.value.slug == p.slug
    ensures second == Err(HttpError(400, "Slug already exists"))
    ensures GetPost(store.posts, p.slug)
         == Ok(Serialized(PostDocument(Stored(old(store.nextId), ToMillis(t1), StoredPost(NewPost(p, now))))))
  {
    ghost var before, id := store.posts, store.nextId;
    first := CreatePost(store, p, now, t1);
    GetPostAfterCreate(before, id, ToMillis(t1), StoredPost(NewPost(p, now)));
    assert SlugTaken(store.posts, p.slug) by {
      assert store.posts[|before|].record.slug == p.slug;
    }
    second := CreatePost(store, q, now, t2);
  }

  /**
   * A post created unpublished has no publication time, is missing from the
   * listing, and can still be fetched by its slug.
   */
  method DraftPost(store: Store, p: CreatePostPayload, now: Timestamp, t: Timestamp)
    returns (created: Result<PostCreated, HttpError>, listing: seq<Document>,
             fetched: Result<Document, HttpError>)
    requires store.Valid() && !SlugTaken(store.posts, p.slug) && !p.published
    modifies store
    ensures created.Ok?
    ensures |store.posts| == |old(store.posts)| + 1
    ensures store.posts[|old(store.posts)|].record.publishedAt == None
    ensures Stored(old(store.nextId), ToMillis(t), StoredPost(NewPost(p, now))) !in Listing(store.posts)
    ensures forall i :: 0 <= i < |listing| ==>
      "id" in listing[i] && listing[i]["id"] != StrVal(IdString(old(store.nextId)))
    ensures fetched
         == Ok(Serialized(PostDocument(Stored(old(store.nextId), ToMillis(t), StoredPost(NewPost(p, now))))))
  {
    ghost var before, id := store.posts, store.nextId;
    ghost var draft := Stored(id, ToMillis(t), StoredPost(NewPost(p, now)));
    created := CreatePost(store, p, now, t);
    UnpublishedNotListed(store.posts, draft);
    listing := ListPosts(store.posts);
    ListedIdsDiffer(before, draft);
    forall i | 0 <= i < |listing|
      ensures "id" in listing[i] && listing[i]["id"] != StrVal(IdString(id))
    {
      SerializedPostId(Listing(store.posts)[i]);
    }
    GetPostAfterCreate(before, id, ToMillis(t), StoredPost(NewPost(p, now)));
    fetched := GetPost(store.posts, p.slug);
  }

  /**
   * When the newest post, with an identifier above all others, is a draft, no
   * listed post carries that identifier.
   */
  lemma ListedIdsDiffer(before: seq<Stored<BlogPost>>, draft: Stored<BlogPost>)
    requires forall i :: 0 <= i < |before| ==> before[i].id < draft.id
    requires !draft.record.published
    ensures var listed := Listing(before + [draft]);
      forall i :: 0 <= i < |listed| ==> IdString(listed[i].id) != IdString(draft.id)
  {
    var posts := before + [draft];
    var listed := Listing(posts);
    ListingIsNewestFirst(posts);
    forall i | 0 <= i < |listed| ensures IdString(listed[i].id) != IdString(draft.id) {
      var x := listed[i];
      assert multiset(listed)[x] > 0;
      assert x in posts;
      var j :| 0 <= j < |posts| && posts[j] == x;
      if j < |before| {
        assert posts[j] == before[j];
      }
      IdStringInjective(x.id, draft.id);
    }
  }
}
