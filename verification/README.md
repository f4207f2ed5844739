# SaaS landing API — a Dafny model of its request handlers

The service is a small HTTP API behind a marketing site. It has signup and
signin over a `user` collection, a blog (list published posts newest first,
fetch one post by slug, create a post) over `blogpost`, and a contact form
that writes to `contactmessage`. This project models the handlers in
`main.py` and the record shapes in `schemas.py`, and proves what each
handler returns and what it leaves in the store.

Layout, one module per file:

- `wrappers.dfy` — `Option` and `Result`.
- `bson.dfy` — the values a stored document holds: naive datetimes with
  `isoformat()`, ObjectIds with their hexadecimal `str()` of at least 24 digits, and the
  field values of a document (`Document = map<string, Value>`). BSON keeps
  datetimes to the millisecond, so a datetime read back from the store has
  lost its sub-millisecond part (`ToMillis`).
- `schemas.dfy` — `User`, `BlogPost`, `ContactMessage`. Their defaults are
  Dafny constructor defaults. `EmailStr` is a subset type.
- `database.dfy` — `Store`, an in-memory stand-in for the document store.
  It holds three collections as sequences in insertion order and a counter
  for fresh identifiers. It also has `find_one` as first-match searches and
  the published-posts query of `get_documents`.
- `serialize.dfy` — `serialize_doc`. `Serialized` is the specification
  function and `SerializeDoc` is the in-place loop the source runs.
- `stable_sort.dfy` — `list.sort(key=…, reverse=True)`: a stable descending
  sort. It has a specification function, an in-place insertion sort on an
  array, and proofs that the result is sorted, a permutation, stable, and
  the only such result.
- `api.dfy` — the handlers.
- `scenarios.dfy` — request sequences run against one store.

Handlers that only read (`SignIn`, `GetPost`, `ListPosts`) take the
contents of the collection they query. Handlers that write take the `Store`
and change only it. Clock readings are parameters. `utcNow` is the
handler's `datetime.utcnow()`. `insertedAt` is the time the store records as
`created_at`.

## Model

| member | source | states |
|---|---|---|
| `Serialize.Serialized` | main.py:28-36 | `_id` is gone and `id` holds its string form; the keys are the input's, with `_id` renamed to `id`; every other field keeps its value, except that datetimes become their ISO-8601 text; no datetime is left |
| `Serialize.SerializeDoc` | main.py:28-36 | the copy-then-update loop returns exactly `Serialized(doc)`; `doc` is a value, so the caller's document is untouched |
| `Serialize.SerializedIdempotent` | main.py:28-36 | serializing an already serialized document changes nothing |
| `Serialize.SerializeEach` | main.py:75 | the list comprehension serializes each document in order, and the result has the same length |
| `Bson.IsoFormatSep` | main.py:34-35 | `isoformat()` text is 19 characters long, or 26 with microseconds, with `-`, the separator and `:` at the fixed positions |
| `Bson.OrdinalOrder` | main.py:74 | the numeric sort key orders datetimes as Python compares them, field by field, and is equal only for equal datetimes |
| `Bson.ToMillis` | main.py:105-107 | a stored datetime reads back with the same fields except the microseconds, which lose their sub-millisecond part |
| `Bson.ToMillisKeeps` | main.py:105-107 | storing leaves a datetime unchanged exactly when it already falls on a whole millisecond |
| `Bson.ToMillisMonotone` | main.py:74 | if one datetime is stored as earlier than another, it was earlier before storing: storing never reverses their order |
| `Bson.ToMillisTies` | main.py:74 | some distinct datetimes, e.g. 12:00:00.000900 and 12:00:00.000950 on one day, are equal once stored, so the listing sees them as equal keys |
| `Bson.IdStringRoundTrip` | main.py:67 | the string form of an ObjectId reads back as that ObjectId |
| `Bson.IdStringInjective` | main.py:67 | two identifiers have the same string form only if they are the same identifier |
| `Schemas.BlogPostDefaults` | schemas.py:22-30 | a post given only its required fields has no excerpt, no tags, is published and has no publication time |
| `Schemas.ContactMessageDefaults` | schemas.py:32-36 | a message given only its required fields has no subject |
| `Schemas.PostFields` | schemas.py:22-30 | a post's document has exactly the eight schema fields, each holding the post's value for it (an absent optional as None), so `published_at` is a datetime exactly when the post has one |
| `Database.StoredPost` | main.py:105-107 | a post read back from the store differs from the one inserted only in its publication time, which is present exactly when it was and is truncated to the millisecond below it |
| `Database.Store.constructor` | main.py:9 | a new store is empty and its identifier invariant holds |
| `Database.Store.InsertUser` | main.py:57 | appends the user with the next identifier and a creation time kept to the millisecond, and returns the identifier's string form; it checks nothing about other users; the other collections are unchanged |
| `Database.Store.InsertPost` | main.py:107 | appends the post with the next identifier, a creation time kept to the millisecond and its publication time kept to the millisecond, and returns the identifier's string form; it checks nothing about other posts; the other collections are unchanged |
| `Database.Store.InsertMessage` | main.py:121 | appends the message with the next identifier and a creation time kept to the millisecond, and returns the identifier's string form; the other collections are unchanged |
| `Database.FindUserByEmail` | main.py:53 | returns nothing iff no user has the email, otherwise the position of the first user that has it |
| `Database.FindPostBySlug` | main.py:79 | returns nothing iff no post has the slug, otherwise the position of the first post that has it |
| `Database.PublishedPosts` | main.py:73 | each published post occurs as often as it is stored, and unpublished posts do not occur |
| `Database.PostDocument` | main.py:73 | a stored post's document has exactly its schema fields with their values, plus `_id` holding its identifier and `created_at` holding its creation time, and no other key |
| `StableSort.SortInPlace` | main.py:74 | the in-place insertion sort leaves the array equal to `SortDescending` of its old contents |
| `StableSort.SortDescendingIsStable` | main.py:74 | keys never increase along the result, and elements with equal keys keep their input order |
| `StableSort.StablySortedPermutes` | main.py:74 | a stable sort's result is a permutation of its input |
| `StableSort.StableSortUnique` | main.py:74 | two stable descending sorts of the same input are equal |
| `Api.CreatePostPayloadDefaults` | main.py:84-91 | a create payload without the optional fields has no excerpt, no tags and is published |
| `Api.ContactPayloadDefaults` | main.py:112-116 | a contact payload without a subject has none |
| `Api.SignUp` | main.py:50-58 | a registered email gives 400 with the store unchanged; otherwise one user with the payload's fields is appended (stored as `Database.Store.InsertUser` keeps it) and the reply echoes its fresh id, the email and the name; email uniqueness is preserved; posts and messages are unchanged |
| `Api.SignIn` | main.py:60-67 | 404 iff no user has the email; for the first user with it, 401 when the stored hash differs, else that user's id string, email and name |
| `Api.SignInAfterSignUp` | main.py:56-67 | after a signup with a new email, signing in with the same hash returns what the signup returned, and any other hash gives 401 |
| `Api.SignUpOnce` | main.py:53-55 | once a user is stored, its email counts as registered, so a repeat signup is refused |
| `Api.ListPosts` | main.py:71-75 | returns the serialized posts of `Listing`, in its order |
| `Api.ListingIsNewestFirst` | main.py:73-74 | the listing holds exactly the published posts; no post comes before one with a later `published_at` (or `created_at` when that is absent); posts with equal dates keep store order |
| `Api.SerializedPostId` | main.py:31 | a serialized stored post carries its identifier's string form under `id` |
| `Api.UnpublishedNotListed` | main.py:73 | an unpublished post never appears in the listing |
| `Api.GetPost` | main.py:77-82 | 404 iff no post has the slug; otherwise the serialized first post with that slug, published or not |
| `Api.GetPostAfterCreate` | main.py:79-82 | a post stored under a new slug is what a lookup by that slug returns |
| `Api.TagsOrEmpty` | main.py:103 | `tags or []` is the given list when there is one and the empty list when there is none |
| `Api.NewPostFields` | main.py:97-106 | the stored post carries the payload's fields; `published_at` is set, to the handler's clock, exactly when the post is published, and once stored it is that clock reading to the millisecond |
| `Api.CreatePost` | main.py:93-108 | a taken slug gives 400 with the store unchanged; otherwise exactly the stored form of `NewPost` is appended and the reply is its fresh id and the slug; slug uniqueness is preserved; users and messages are unchanged |
| `Api.SubmitContact` | main.py:118-122 | always appends one message with the payload's fields and answers with a fresh id and status `"received"`; users and posts are unchanged |
| `Scenarios.SignUpSignInSignUp` | main.py:50-67 | signup, then signin with the same hash, returns the same account; a second signup with that email gives 400, whatever its other fields |
| `Scenarios.CreateTwice` | main.py:93-108 | a second post with the same slug gives 400, and the first can still be fetched as the store keeps it |
| `Scenarios.DraftPost` | main.py:71-108 | a post created unpublished has no publication time; no document the listing returns carries its id; it can be fetched by its slug |
| `Scenarios.ListedIdsDiffer` | main.py:73-75 | when the newest post, whose identifier is above all others, is a draft, no listed post has that identifier's string form |

`User` (schemas.py:16-20) has four required fields and no defaults, and so
do `Api.SignUpPayload` (main.py:40-44) and `Api.SignInPayload`, which has two
(main.py:46-48). `Api.NewPost` builds the post at main.py:97-106; its
properties are `Api.NewPostFields`. `Api.SortDate` is the sort key lambda at
main.py:74: the publication time, or the creation time when there is none.
`Api.Recency` is that datetime as an integer (`Bson.Ordinal`). `Api.Listing`
is the published posts sorted by it (main.py:73-74); `Api.ListPosts` and
`Api.ListingIsNewestFirst` state what it holds. `Bson.PyStr` is Python's
`str()` on a stored value (main.py:31, 67); `Serialize.Serialized` uses it
for `_id`, and `Bson.IdStringRoundTrip` covers the ObjectId case.
`ContactMessage` (schemas.py:32-36) has a `subject` that defaults to
absent. None of the schemas relates one record to another. The store's
invariant (`Database.Store.Valid`) therefore covers only identifiers. Email
and slug uniqueness hold because `SignUp` and `CreatePost` preserve them.

## Left out

- Application setup, CORS middleware and the root banner (main.py:12-24), and the uvicorn entry point (main.py:160-163): framework and process plumbing.
- The `/test` health endpoint (main.py:126-158): environment reads and live store calls, with errors swallowed into text.
- `database.py` is not part of this model. `Store` stands in for it. That includes the store connection and a failing store call, which the source leaves as an unhandled fault. The model assumes `create_document` stamps `created_at`. Any other field it may add is not modelled. The store keeps datetimes to the millisecond, as BSON does; any other change the driver makes to a value is not modelled.
- ObjectId generation: identifiers come from a counter, not from time, machine and random bytes.
- Time zones: datetimes are naive calendar values. The clock is a parameter.
- Pydantic payload validation (a missing field, a wrong type, the 422 reply): payloads are typed records, so a malformed one cannot be built.
- Schemas.ValidEmail: a simplified email syntax (exactly one `@`, not at either end). The full rules of `EmailStr` and its normalisation are not modelled.
- Concurrency: the handlers run one after another here. The gap between the existence check and the insert in `signup` and `create_post` is not modelled, so the uniqueness results hold only for sequential requests.
- Key order inside a document: documents are maps. JSON key order is not modelled.
- Bson.PyStr: `str()` of a list value omits Python's escaping of quotes inside the strings. `_id` never holds a list in this model.
- Database.PublishedPosts: its contract fixes which posts are returned and how often. It does not fix their order. Store order is the definition, and the stability result in `Api.ListingIsNewestFirst` is stated relative to it.
