/**
 * Blog posts: the public listing (`GET /blog`), the public lookup by slug
 * (`GET /blog/:slug`), and the admin insert, update and hard delete with
 * their `published_at` rule.
 */
module BlogPosts {
  import opened Wrappers
  import opened ApiErrors
  import opened Schema
  import opened Ordering
  import opened Sql

  /** The columns the public endpoints return: a post without its meta fields. */
  datatype BlogPostSummary = BlogPostSummary(
    id: int, title: string, slug: string, excerpt: Option<string>, content: string,
    featuredImageUrl: Option<string>, published: bool, publishedAt: Option<Timestamp>,
    createdAt: Timestamp, updatedAt: Timestamp)

  function Summary(p: BlogPost): BlogPostSummary {
    BlogPostSummary(p.id, p.title, p.slug, p.excerpt, p.content, p.featuredImageUrl,
                    p.published, p.publishedAt, p.createdAt, p.updatedAt)
  }

  /** The table seen through the SELECT list of the public endpoints. */
  function Summaries(rows: seq<BlogPost>): (r: seq<BlogPostSummary>)
    ensures |r| == |rows| && forall i :: 0 <= i < |rows| ==> r[i] == Summary(rows[i])
  {
    seq(|rows|, i requires 0 <= i < |rows| => Summary(rows[i]))
  }

  // ---------------------------------------------------------------- listing

  /** The query-string parameters of `GET /blog`. */
  datatype ListBlogParams = ListBlogParams(published: Option<bool>, limit: Option<nat>)

  const BlogColumns: string :=
    "id, title, slug, excerpt, content, featured_image_url, published, published_at, created_at, updated_at"

  const BlogOrderText: string := "published_at DESC, created_at DESC"

  /** `params.published !== undefined`: `false` is a filter too. */
  function BlogFilters(p: ListBlogParams): seq<string> {
    if p.published.Some? then ["published"] else []
  }

  /** The query the handler builds; it depends only on which parameters are present. */
  function BlogQuery(p: ListBlogParams): seq<Clause> {
    ListQuery(BlogColumns, "blog_posts", BlogFilters(p), BlogOrderText, Truthy(p.limit))
  }

  /** The parameters in placeholder order: published, limit. */
  function BlogArgs(p: ListBlogParams): seq<SqlValue> {
    (if p.published.Some? then [Bool(p.published.value)] else [])
    + (if Truthy(p.limit) then [Int(p.limit.value)] else [])
  }

  function BlogColumn(e: BlogPostSummary, column: string): Option<SqlValue> {
    if column == "published" then Some(Bool(e.published)) else None
  }

  predicate BlogSelected(e: BlogPostSummary, p: ListBlogParams) {
    p.published.Some? ==> e.published == p.published.value
  }

  function BlogKeep(p: ListBlogParams): BlogPostSummary -> bool {
    e => BlogSelected(e, p)
  }

  /**
   * `ORDER BY published_at DESC, created_at DESC`. Where a NULL
   * `published_at` sorts is the engine's choice, so it is a parameter:
   * `nullsFirst` puts drafts without a date before every dated post.
   */
  predicate BlogBefore(a: BlogPostSummary, b: BlogPostSummary, nullsFirst: bool) {
    match (a.publishedAt, b.publishedAt)
    case (Some(x), Some(y)) => x > y || (x == y && a.createdAt >= b.createdAt)
    case (None, None) => a.createdAt >= b.createdAt
    case (None, Some(_)) => nullsFirst
    case (Some(_), None) => !nullsFirst
  }

  function BlogOrder(nullsFirst: bool): (BlogPostSummary, BlogPostSummary) -> bool {
    (a, b) => BlogBefore(a, b, nullsFirst)
  }

  lemma BlogOrderIsTotal(nullsFirst: bool)
    ensures TotalPreorder(BlogOrder(nullsFirst))
  {
  }

  /** Every post the request's filter accepts, in ORDER BY order. */
  function BlogMatches(rows: seq<BlogPost>, p: ListBlogParams, nullsFirst: bool): seq<BlogPostSummary> {
    SortBy(Filter(Summaries(rows), BlogKeep(p)), BlogOrder(nullsFirst))
  }

  /** The listing the endpoint promises: the matches, cut to a truthy limit. */
  function BlogListing(rows: seq<BlogPost>, p: ListBlogParams, nullsFirst: bool): seq<BlogPostSummary> {
    Limited(BlogMatches(rows, p, nullsFirst), EffectiveLimit(p.limit))
  }

  /** Every listed post is a stored post that passes the `published` filter. */
  lemma BlogListingSound(rows: seq<BlogPost>, p: ListBlogParams, nullsFirst: bool, e: BlogPostSummary)
    requires e in BlogListing(rows, p, nullsFirst)
    ensures exists i :: 0 <= i < |rows| && e == Summary(rows[i])
    ensures p.published.Some? ==> e.published == p.published.value
  {
    SelectRowsSound(Summaries(rows), BlogKeep(p), BlogOrder(nullsFirst), EffectiveLimit(p.limit), e);
    var s := Summaries(rows);
    var i :| 0 <= i < |s| && s[i] == e;
  }

  /**
   * Without a truthy limit a post is listed exactly when it passes the
   * filter: `published=false` lists the drafts and nothing else.
   */
  lemma BlogListingExact(rows: seq<BlogPost>, p: ListBlogParams, nullsFirst: bool, i: nat)
    requires !Truthy(p.limit) && i < |rows|
    ensures Summary(rows[i]) in BlogListing(rows, p, nullsFirst)
        <==> (p.published.Some? ==> rows[i].published == p.published.value)
  {
    var e := Summary(rows[i]);
    assert e == Summaries(rows)[i];
    if BlogSelected(e, p) {
      SelectRowsComplete(Summaries(rows), BlogKeep(p), BlogOrder(nullsFirst), e);
    }
    if e in BlogListing(rows, p, nullsFirst) {
      SelectRowsSound(Summaries(rows), BlogKeep(p), BlogOrder(nullsFirst), EffectiveLimit(p.limit), e);
    }
  }

  /** With neither filter nor limit, the listing is a reordering of the whole table. */
  lemma BlogListingAll(rows: seq<BlogPost>, nullsFirst: bool)
    ensures multiset(BlogListing(rows, ListBlogParams(None, None), nullsFirst)) == multiset(Summaries(rows))
  {
    var p := ListBlogParams(None, None);
    assert forall i :: 0 <= i < |Summaries(rows)| ==> BlogKeep(p)(Summaries(rows)[i]);
  }

  lemma BlogListingSorted(rows: seq<BlogPost>, p: ListBlogParams, nullsFirst: bool)
    ensures Sorted(BlogListing(rows, p, nullsFirst), BlogOrder(nullsFirst))
  {
    BlogOrderIsTotal(nullsFirst);
    SelectRowsSorted(Summaries(rows), BlogKeep(p), BlogOrder(nullsFirst), EffectiveLimit(p.limit));
  }

  /**
   * Whatever the engine does with NULLs, dated posts come newest first, and
   * posts with the same date come newest-created first.
   */
  lemma BlogListingNewestFirst(rows: seq<BlogPost>, p: ListBlogParams, nullsFirst: bool, i: nat, j: nat)
    requires i < j < |BlogListing(rows, p, nullsFirst)|
    requires BlogListing(rows, p, nullsFirst)[i].publishedAt.Some?
    requires BlogListing(rows, p, nullsFirst)[j].publishedAt.Some?
    ensures BlogListing(rows, p, nullsFirst)[i].publishedAt.value >= BlogListing(rows, p, nullsFirst)[j].publishedAt.value
    ensures BlogListing(rows, p, nullsFirst)[i].publishedAt == BlogListing(rows, p, nullsFirst)[j].publishedAt
         ==> BlogListing(rows, p, nullsFirst)[i].createdAt >= BlogListing(rows, p, nullsFirst)[j].createdAt
  {
    BlogListingSorted(rows, p, nullsFirst);
    var r := BlogListing(rows, p, nullsFirst);
    assert BlogOrder(nullsFirst)(r[i], r[j]);
  }

  /** A truthy limit keeps the first `limit` matches; otherwise all of them. */
  lemma BlogListingLimited(rows: seq<BlogPost>, p: ListBlogParams, nullsFirst: bool)
    ensures Truthy(p.limit) ==> |BlogListing(rows, p, nullsFirst)| <= p.limit.value
    ensures BlogListing(rows, p, nullsFirst) <= BlogMatches(rows, p, nullsFirst)
    ensures !Truthy(p.limit) ==> BlogListing(rows, p, nullsFirst) == BlogMatches(rows, p, nullsFirst)
  {
  }

  /** The bound conditions of the built query are exactly the `published` filter. */
  lemma BlogConditions(p: ListBlogParams)
    ensures |BlogArgs(p)| == |BlogFilters(p)| + Count(Truthy(p.limit))
    ensures Bound(BlogQuery(p), |BlogArgs(p)|)
    ensures Conditions(BlogQuery(p), BlogArgs(p))
         == if p.published.Some? then [Condition("published", Bool(p.published.value))] else []
    ensures LimitOf(BlogQuery(p), BlogArgs(p)) == EffectiveLimit(p.limit)
  {
    ListQueryBinds(BlogColumns, "blog_posts", BlogFilters(p), BlogOrderText, Truthy(p.limit), BlogArgs(p));
  }

  /** The engine, run on the query the handler builds, returns exactly the listing. */
  lemma RunBlogQuery(rows: seq<BlogPost>, p: ListBlogParams, nullsFirst: bool)
    ensures Bound(BlogQuery(p), |BlogArgs(p)|)
    ensures Run(BlogQuery(p), BlogArgs(p), Summaries(rows), BlogColumn, BlogOrder(nullsFirst))
         == BlogListing(rows, p, nullsFirst)
  {
    BlogConditions(p);
    var conds := Conditions(BlogQuery(p), BlogArgs(p));
    var s := Summaries(rows);
    forall i | 0 <= i < |s| ensures Satisfies(s[i], conds, BlogColumn) == BlogSelected(s[i], p) {
      if p.published.Some? {
        assert Satisfies(s[i], conds, BlogColumn) ==> BlogColumn(s[i], conds[0].column) == Some(conds[0].value);
      }
    }
    SelectRowsExtensional(s, r => Satisfies(r, conds, BlogColumn), BlogKeep(p), BlogOrder(nullsFirst),
                          EffectiveLimit(p.limit));
  }

  /** What the built query and parameters mean, in the terms the handler's caller sees. */
  lemma BuiltBlogQuery(rows: seq<BlogPost>, params: ListBlogParams, nullsFirst: bool,
                       query: seq<Clause>, queryParams: seq<SqlValue>)
    requires query == BlogQuery(params) && queryParams == BlogArgs(params)
    ensures Placeholders(query) == Numbered(|queryParams|)
    ensures Bound(query, |queryParams|)
    ensures Run(query, queryParams, Summaries(rows), BlogColumn, BlogOrder(nullsFirst))
         == BlogListing(rows, params, nullsFirst)
  {
    BlogConditions(params);
    ListQueryNumbered(BlogColumns, "blog_posts", BlogFilters(params), BlogOrderText, Truthy(params.limit));
    RunBlogQuery(rows, params, nullsFirst);
  }

  /**
   * `listBlog`: builds the query, numbering the placeholder of each
   * supplied parameter from `paramIndex`, and runs it.
   */
  method ListBlog(rows: seq<BlogPost>, params: ListBlogParams, nullsFirst: bool)
    returns (query: seq<Clause>, queryParams: seq<SqlValue>, posts: seq<BlogPostSummary>)
    ensures query == BlogQuery(params)
    ensures queryParams == BlogArgs(params)
    ensures Placeholders(query) == Numbered(|queryParams|)
    ensures posts == BlogListing(rows, params, nullsFirst)
  {
    ghost var filters: seq<string> := [];
    query := [SelectWhereTrue(BlogColumns, "blog_posts")];
    queryParams := [];
    var paramIndex := 1;

    if params.published.Some? {
      FilterClausesSnoc(filters, "published", 1);
      query := query + [AndEquals("published", paramIndex)];
      queryParams := queryParams + [Bool(params.published.value)];
      paramIndex := paramIndex + 1;
      filters := filters + ["published"];
    }
    assert filters == BlogFilters(params) && paramIndex == |filters| + 1;
    ghost var filtered := query;
    assert filtered == [SelectWhereTrue(BlogColumns, "blog_posts")] + FilterClauses(filters, 1);

    query := query + [OrderBy(BlogOrderText)];

    if params.limit.Some? && params.limit.value != 0 {
      query := query + [Limit(paramIndex)];
      queryParams := queryParams + [Int(params.limit.value)];
    }
    assert query == filtered + [OrderBy(BlogOrderText)]
                  + (if Truthy(params.limit) then [Limit(|filters| + 1)] else []);

    assert query == BlogQuery(params);
    BuiltBlogQuery(rows, params, nullsFirst, query, queryParams);
    posts := Run(query, queryParams, Summaries(rows), BlogColumn, BlogOrder(nullsFirst));
  }

  // ----------------------------------------------------------- get by slug

  /** The position of the first published post with this slug, if any. */
  function FirstPublished(rows: seq<BlogPost>, slug: string): (r: Option<nat>)
    ensures r.Some? ==> r.value < |rows| && rows[r.value].slug == slug && rows[r.value].published
    ensures r.Some? ==> forall j :: 0 <= j < r.value ==> !(rows[j].slug == slug && rows[j].published)
    ensures r.None? <==> forall j :: 0 <= j < |rows| ==> !(rows[j].slug == slug && rows[j].published)
  {
    if rows == [] then None
    else if rows[0].slug == slug && rows[0].published then Some(0)
    else match FirstPublished(rows[1..], slug)
      case None => None
      case Some(k) => Some(k + 1)
  }

  const BlogNotFound: ApiError := NotFound("blog post not found")

  /**
   * `getBlogPost`: the post with this slug, provided it is published;
   * NotFound both for an unknown slug and for a draft. Nothing is written.
   * With several published posts sharing a slug the first stored one is
   * returned.
   */
  function GetBlogPost(rows: seq<BlogPost>, slug: string): (r: Result<BlogPostSummary, ApiError>)
    ensures r.Ok? ==> r.value.slug == slug && r.value.published
    ensures r.Ok? ==> exists i :: 0 <= i < |rows| && r.value == Summary(rows[i])
    ensures r.Err? <==> forall i :: 0 <= i < |rows| ==> !(rows[i].slug == slug && rows[i].published)
    ensures r.Err? ==> r.error == BlogNotFound
  {
    match FirstPublished(rows, slug)
    case None => Err(BlogNotFound)
    case Some(i) => Ok(Summary(rows[i]))
  }

  /** A slug that only drafts carry is not found. */
  lemma DraftNotFound(rows: seq<BlogPost>, slug: string)
    requires forall i :: 0 <= i < |rows| && rows[i].slug == slug ==> !rows[i].published
    ensures GetBlogPost(rows, slug) == Err(BlogNotFound)
  {
  }

  // ------------------------------------------------------------ admin writes

  /** The body of `POST /admin/blog`. */
  datatype CreateBlogPostRequest = CreateBlogPostRequest(
    title: string, slug: string, excerpt: Option<string>, content: string,
    featuredImageUrl: Option<string>, published: bool,
    metaTitle: Option<string>, metaDescription: Option<string>, metaKeywords: Option<string>)

  /** `req.published ? new Date() : null`. */
  function PublishedAt(published: bool, now: Timestamp): (r: Option<Timestamp>)
    ensures r.Some? <==> published
    ensures r.Some? ==> r.value == now
  {
    if published then Some(now) else None
  }

  /** The row `createBlogPost` inserts; `created_at` and `updated_at` take the column default "now". */
  function NewBlogPost(id: int, req: CreateBlogPostRequest, now: Timestamp): BlogPost {
    BlogPost(id, req.title, req.slug, req.excerpt, req.content, req.featuredImageUrl, req.published,
             PublishedAt(req.published, now), req.metaTitle, req.metaDescription, req.metaKeywords,
             now, now)
  }

  /**
   * `createBlogPost`: inserts the post as given (no check on the slug or the
   * contents) with `published_at` set exactly when it is published.
   */
  method CreateBlogPost(db: Database, req: CreateBlogPostRequest, now: Timestamp) returns (resp: Created)
    requires db.Valid()
    modifies db`blogPosts, db`nextBlogId
    ensures db.Valid()
    ensures resp.id == old(db.nextBlogId)
    ensures forall i :: 0 <= i < |old(db.blogPosts)| ==> old(db.blogPosts)[i].id != resp.id
    ensures db.blogPosts == old(db.blogPosts) + [NewBlogPost(resp.id, req, now)]
    ensures resp.message == "Blog post created successfully"
  {
    var publishedAt := if req.published then Some(now) else None;
    var id := db.nextBlogId;
    db.blogPosts := db.blogPosts + [BlogPost(
      id, req.title, req.slug, req.excerpt, req.content, req.featuredImageUrl, req.published,
      publishedAt, req.metaTitle, req.metaDescription, req.metaKeywords, now, now)];
    db.nextBlogId := id + 1;
    resp := Created(id, "Blog post created successfully");
  }

  /** A post created as published can be read back by its slug, unless an older published post has it. */
  lemma CreatedPostIsFound(rows: seq<BlogPost>, id: int, req: CreateBlogPostRequest, now: Timestamp)
    requires req.published
    ensures GetBlogPost(rows + [NewBlogPost(id, req, now)], req.slug).Ok?
    ensures GetBlogPost(rows, req.slug).Err?
        ==> GetBlogPost(rows + [NewBlogPost(id, req, now)], req.slug) == Ok(Summary(NewBlogPost(id, req, now)))
  {
    var all := rows + [NewBlogPost(id, req, now)];
    assert all[|rows|] == NewBlogPost(id, req, now);
    assert forall i :: 0 <= i < |rows| ==> all[i] == rows[i];
  }

  /** A post created as a draft is invisible by slug. */
  lemma CreatedDraftIsHidden(rows: seq<BlogPost>, id: int, req: CreateBlogPostRequest, now: Timestamp)
    requires !req.published
    ensures GetBlogPost(rows + [NewBlogPost(id, req, now)], req.slug) == GetBlogPost(rows, req.slug)
  {
    var all := rows + [NewBlogPost(id, req, now)];
    assert forall i :: 0 <= i < |rows| ==> all[i] == rows[i];
  }

  /** The body of `PUT /admin/blog/:id`: no meta fields. */
  datatype UpdateBlogPostRequest = UpdateBlogPostRequest(
    title: string, slug: string, excerpt: Option<string>, content: string,
    featuredImageUrl: Option<string>, published: bool)

  /**
   * `UPDATE blog_posts SET ... WHERE id = $id`: the six request columns,
   * `published_at` from the publish rule and `updated_at` to now; the meta
   * fields, id and `created_at` are not in the SET list.
   */
  function UpdatedBlogPosts(rows: seq<BlogPost>, id: int, req: UpdateBlogPostRequest, now: Timestamp)
    : (r: seq<BlogPost>)
    ensures |r| == |rows|
    ensures forall i :: 0 <= i < |rows| && rows[i].id != id ==> r[i] == rows[i]
    ensures forall i :: 0 <= i < |rows| && rows[i].id == id ==> r[i] == BlogPost(
      rows[i].id, req.title, req.slug, req.excerpt, req.content, req.featuredImageUrl, req.published,
      PublishedAt(req.published, now), rows[i].metaTitle, rows[i].metaDescription, rows[i].metaKeywords,
      rows[i].createdAt, now)
    ensures (forall i :: 0 <= i < |rows| ==> rows[i].id != id) ==> r == rows
  {
    seq(|rows|, i requires 0 <= i < |rows| =>
      if rows[i].id == id then rows[i].(title := req.title, slug := req.slug, excerpt := req.excerpt,
        content := req.content, featuredImageUrl := req.featuredImageUrl, published := req.published,
        publishedAt := PublishedAt(req.published, now), updatedAt := now)
      else rows[i])
  }

  /**
   * Republishing resets the date: an already-published post updated with
   * `published = true` gets `published_at = now`, not its original date.
   */
  lemma RepublishResetsDate(rows: seq<BlogPost>, id: int, req: UpdateBlogPostRequest, now: Timestamp, i: nat)
    requires i < |rows| && rows[i].id == id && req.published
    ensures UpdatedBlogPosts(rows, id, req, now)[i].publishedAt == Some(now)
  {
  }

  /** The same update at the same instant, sent twice, leaves the table as sending it once. */
  lemma UpdateBlogIdempotent(rows: seq<BlogPost>, id: int, req: UpdateBlogPostRequest, now: Timestamp)
    ensures UpdatedBlogPosts(UpdatedBlogPosts(rows, id, req, now), id, req, now)
         == UpdatedBlogPosts(rows, id, req, now)
  {
  }

  /** `updateBlogPost`: a silent success even when no row has the id. */
  method UpdateBlogPost(db: Database, id: int, req: UpdateBlogPostRequest, now: Timestamp)
    returns (resp: Done)
    requires db.Valid()
    modifies db`blogPosts
    ensures db.Valid()
    ensures db.blogPosts == UpdatedBlogPosts(old(db.blogPosts), id, req, now)
    ensures resp.message == "Blog post updated successfully"
  {
    db.blogPosts := UpdatedBlogPosts(db.blogPosts, id, req, now);
    resp := Done("Blog post updated successfully");
  }

  /** `DELETE FROM blog_posts WHERE id = $id`. */
  function WithoutBlogPost(rows: seq<BlogPost>, id: int): (r: seq<BlogPost>)
    ensures forall k :: 0 <= k < |r| ==> r[k].id != id && r[k] in rows
    ensures forall k :: 0 <= k < |rows| && rows[k].id != id ==> rows[k] in r
    ensures (forall k :: 0 <= k < |rows| ==> rows[k].id != id) ==> r == rows
    ensures forall x :: multiset(r)[x] == if x.id == id then 0 else multiset(rows)[x]
  {
    FilterCount(rows, (p: BlogPost) => p.id != id);
    Filter(rows, (p: BlogPost) => p.id != id)
  }

  /**
   * The surviving rows keep their order: deleting from two runs of rows one
   * after the other is deleting from each, and a single row survives exactly
   * when its id differs.
   */
  lemma DeleteBlogKeepsOrder(a: seq<BlogPost>, b: seq<BlogPost>, id: int)
    ensures WithoutBlogPost(a + b, id) == WithoutBlogPost(a, id) + WithoutBlogPost(b, id)
    ensures |a| == 1 ==> WithoutBlogPost(a, id) == if a[0].id == id then [] else a
  {
    FilterAppend(a, b, (p: BlogPost) => p.id != id);
  }

  lemma {:induction false} DeleteBlogIdempotent(rows: seq<BlogPost>, id: int)
    ensures WithoutBlogPost(WithoutBlogPost(rows, id), id) == WithoutBlogPost(rows, id)
  {
    FilterIdempotent(rows, (p: BlogPost) => p.id != id);
  }

  /** `deleteBlogPost`: a hard delete, a silent success for an unknown id. */
  method DeleteBlogPost(db: Database, id: int) returns (resp: Done)
    requires db.Valid()
    modifies db`blogPosts
    ensures db.Valid()
    ensures db.blogPosts == WithoutBlogPost(old(db.blogPosts), id)
    ensures resp.message == "Blog post deleted successfully"
  {
    db.blogPosts := WithoutBlogPost(db.blogPosts, id);
    resp := Done("Blog post deleted successfully");
  }
}
