/**
 * The three record shapes of the service (schemas.py), one collection each:
 * User -> "user", BlogPost -> "blogpost", ContactMessage -> "contactmessage".
 * A constructor parameter with a default value is a field the schema lets
 * callers omit; every other field is required. No schema relates one record
 * to another: uniqueness of emails and slugs is left to the request handlers.
 */
module Schemas {
  import opened Wrappers
  import opened Bson

  /**
   * The address syntax EmailStr admits, simplified: exactly one '@', with
   * something on either side of it.
   */
  predicate ValidEmail(s: string) {
    && 3 <= |s|
    && multiset(s)['@'] == 1
    && s[0] != '@'
    && s[|s| - 1] != '@'
  }

  type EmailStr = s: string | ValidEmail(s) witness "a@b"

  /** An account; all four fields are required. */
  datatype User = User(name: string, email: EmailStr, passwordHash: string, salt: string)

  /** A post; excerpt and publication time are optional, tags default to none, posts to published. */
  datatype BlogPost = BlogPost(
    title: string,
    slug: string,
    excerpt: Option<string> := None,
    content: string,
    author: string,
    tags: seq<string> := [],
    published: bool := true,
    publishedAt: Option<Timestamp> := None)

  /** A message sent through the contact form; the subject is optional. */
  datatype ContactMessage = ContactMessage(
    name: string,
    email: EmailStr,
    message: string,
    subject: Option<string> := None)

  /** What the schema fills in for a post given only its required fields. */
  lemma BlogPostDefaults(title: string, slug: string, content: string, author: string)
    ensures var p := BlogPost(title := title, slug := slug, content := content, author := author);
      && p.excerpt == None
      && p.tags == []
      && p.published
      && p.publishedAt == None
  {
  }

  /** What the schema fills in for a message given only its required fields. */
  lemma ContactMessageDefaults(name: string, email: EmailStr, message: string)
    ensures ContactMessage(name := name, email := email, message := message).subject == None
  {
  }

  function OptionalStr(o: Option<string>): Value {
    match o
    case None => NoneVal
    case Some(s) => StrVal(s)
  }

  function OptionalDate(o: Option<Timestamp>): Value {
    match o
    case None => NoneVal
    case Some(t) => DateVal(t)
  }

  /** `post.model_dump()`: every field under its Python name, absent optionals as None. */
  function PostFields(p: BlogPost): (d: Document)
    ensures d.Keys == {"title", "slug", "excerpt", "content", "author", "tags", "published", "published_at"}
    ensures d["title"] == StrVal(p.title) && d["slug"] == StrVal(p.slug)
    ensures d["excerpt"] == (if p.excerpt.Some? then StrVal(p.excerpt.value) else NoneVal)
    ensures d["content"] == StrVal(p.content) && d["author"] == StrVal(p.author)
    ensures d["tags"] == ListVal(p.tags) && d["published"] == BoolVal(p.published)
    ensures d["published_at"] == (if p.publishedAt.Some? then DateVal(p.publishedAt.value) else NoneVal)
    ensures p.publishedAt.Some? <==> d["published_at"].DateVal?
  {
    map[
      "title" := StrVal(p.title),
      "slug" := StrVal(p.slug),
      "excerpt" := OptionalStr(p.excerpt),
      "content" := StrVal(p.content),
      "author" := StrVal(p.author),
      "tags" := ListVal(p.tags),
      "published" := BoolVal(p.published),
      "published_at" := OptionalDate(p.publishedAt)]
  }
}
