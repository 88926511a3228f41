/**
 * Testimonials: the public listing (`GET /testimonials`) and the admin
 * insert, full-row update and hard delete.
 */
module Testimonials {
  import opened Wrappers
  import opened Schema
  import opened Ordering
  import opened Sql

  // ---------------------------------------------------------------- listing

  /** The query-string parameters of `GET /testimonials`. */
  datatype ListTestimonialsParams = ListTestimonialsParams(featured: Option<bool>, limit: Option<nat>)

  const TestimonialColumns: string := "id, client_name, client_role, content, rating, featured, created_at"

  const TestimonialOrderText: string := "featured DESC, created_at DESC"

  /** `params.featured !== undefined`: unlike the portfolio listing, `false` is a filter too. */
  function TestimonialFilters(p: ListTestimonialsParams): seq<string> {
    if p.featured.Some? then ["featured"] else []
  }

  /** The query the handler builds; it depends only on which parameters are present. */
  function TestimonialQuery(p: ListTestimonialsParams): seq<Clause> {
    ListQuery(TestimonialColumns, "testimonials", TestimonialFilters(p), TestimonialOrderText, Truthy(p.limit))
  }

  /** The parameters in placeholder order: featured, limit. */
  function TestimonialArgs(p: ListTestimonialsParams): seq<SqlValue> {
    (if p.featured.Some? then [Bool(p.featured.value)] else [])
    + (if Truthy(p.limit) then [Int(p.limit.value)] else [])
  }

  function TestimonialColumn(t: Testimonial, column: string): Option<SqlValue> {
    if column == "featured" then Some(Bool(t.featured)) else None
  }

  predicate TestimonialSelected(t: Testimonial, p: ListTestimonialsParams) {
    p.featured.Some? ==> t.featured == p.featured.value
  }

  function TestimonialKeep(p: ListTestimonialsParams): Testimonial -> bool {
    t => TestimonialSelected(t, p)
  }

  /** `ORDER BY featured DESC, created_at DESC`: `true` sorts above `false`. */
  predicate TestimonialBefore(a: Testimonial, b: Testimonial) {
    (a.featured && !b.featured) || (a.featured == b.featured && a.createdAt >= b.createdAt)
  }

  lemma TestimonialOrderIsTotal()
    ensures TotalPreorder(TestimonialBefore)
  {
  }

  /** Every testimonial the request's filter accepts, in ORDER BY order. */
  function TestimonialMatches(rows: seq<Testimonial>, p: ListTestimonialsParams): seq<Testimonial> {
    SortBy(Filter(rows, TestimonialKeep(p)), TestimonialBefore)
  }

  /** The listing the endpoint promises: the matches, cut to a truthy limit. */
  function TestimonialListing(rows: seq<Testimonial>, p: ListTestimonialsParams): seq<Testimonial> {
    Limited(TestimonialMatches(rows, p), EffectiveLimit(p.limit))
  }

  /**
   * Every listed testimonial is stored and passes the filter; without a
   * truthy limit every stored one that passes it is listed.
   */
  lemma TestimonialListingExact(rows: seq<Testimonial>, p: ListTestimonialsParams, t: Testimonial)
    ensures t in TestimonialListing(rows, p) ==> t in rows && TestimonialSelected(t, p)
    ensures !Truthy(p.limit) && t in rows && TestimonialSelected(t, p) ==> t in TestimonialListing(rows, p)
  {
    if t in TestimonialListing(rows, p) {
      SelectRowsSound(rows, TestimonialKeep(p), TestimonialBefore, EffectiveLimit(p.limit), t);
    }
    if !Truthy(p.limit) && t in rows && TestimonialSelected(t, p) {
      SelectRowsComplete(rows, TestimonialKeep(p), TestimonialBefore, t);
    }
  }

  /** `featured=false` lists only testimonials that are not featured. */
  lemma FeaturedFalseListsOthers(rows: seq<Testimonial>, p: ListTestimonialsParams, t: Testimonial)
    requires p.featured == Some(false) && t in TestimonialListing(rows, p)
    ensures !t.featured
  {
    TestimonialListingExact(rows, p, t);
  }

  /** Featured testimonials come first, and within each group the newest comes first. */
  lemma TestimonialListingOrdered(rows: seq<Testimonial>, p: ListTestimonialsParams, i: nat, j: nat)
    requires i < j < |TestimonialListing(rows, p)|
    ensures TestimonialListing(rows, p)[j].featured ==> TestimonialListing(rows, p)[i].featured
    ensures TestimonialListing(rows, p)[i].featured == TestimonialListing(rows, p)[j].featured
         ==> TestimonialListing(rows, p)[i].createdAt >= TestimonialListing(rows, p)[j].createdAt
  {
    TestimonialOrderIsTotal();
    SelectRowsSorted(rows, TestimonialKeep(p), TestimonialBefore, EffectiveLimit(p.limit));
    var r := TestimonialListing(rows, p);
    assert TestimonialBefore(r[i], r[j]);
  }

  /** A truthy limit keeps the first `limit` matches; otherwise all of them. */
  lemma TestimonialListingLimited(rows: seq<Testimonial>, p: ListTestimonialsParams)
    ensures Truthy(p.limit) ==> |TestimonialListing(rows, p)| <= p.limit.value
    ensures TestimonialListing(rows, p) <= TestimonialMatches(rows, p)
    ensures !Truthy(p.limit) ==> TestimonialListing(rows, p) == TestimonialMatches(rows, p)
  {
  }

  /** The bound conditions of the built query are exactly the `featured` filter. */
  lemma TestimonialConditions(p: ListTestimonialsParams)
    ensures |TestimonialArgs(p)| == |TestimonialFilters(p)| + Count(Truthy(p.limit))
    ensures Bound(TestimonialQuery(p), |TestimonialArgs(p)|)
    ensures Conditions(TestimonialQuery(p), TestimonialArgs(p))
         == if p.featured.Some? then [Condition("featured", Bool(p.featured.value))] else []
    ensures LimitOf(TestimonialQuery(p), TestimonialArgs(p)) == EffectiveLimit(p.limit)
  {
    ListQueryBinds(TestimonialColumns, "testimonials", TestimonialFilters(p), TestimonialOrderText,
                   Truthy(p.limit), TestimonialArgs(p));
  }

  /** The engine, run on the query the handler builds, returns exactly the listing. */
  lemma RunTestimonialQuery(rows: seq<Testimonial>, p: ListTestimonialsParams)
    ensures Bound(TestimonialQuery(p), |TestimonialArgs(p)|)
    ensures Run(TestimonialQuery(p), TestimonialArgs(p), rows, TestimonialColumn, TestimonialBefore)
         == TestimonialListing(rows, p)
  {
    TestimonialConditions(p);
    var conds := Conditions(TestimonialQuery(p), TestimonialArgs(p));
    forall i | 0 <= i < |rows|
      ensures Satisfies(rows[i], conds, TestimonialColumn) == TestimonialSelected(rows[i], p)
    {
      if p.featured.Some? {
        assert Satisfies(rows[i], conds, TestimonialColumn)
           ==> TestimonialColumn(rows[i], conds[0].column) == Some(conds[0].value);
      }
    }
    SelectRowsExtensional(rows, r => Satisfies(r, conds, TestimonialColumn), TestimonialKeep(p),
                          TestimonialBefore, EffectiveLimit(p.limit));
  }

  /** What the built query and parameters mean, in the terms the handler's caller sees. */
  lemma BuiltTestimonialQuery(rows: seq<Testimonial>, params: ListTestimonialsParams,
                              query: seq<Clause>, queryParams: seq<SqlValue>)
    requires query == TestimonialQuery(params) && queryParams == TestimonialArgs(params)
    ensures Placeholders(query) == Numbered(|queryParams|)
    ensures Bound(query, |queryParams|)
    ensures Run(query, queryParams, rows, TestimonialColumn, TestimonialBefore) == TestimonialListing(rows, params)
  {
    TestimonialConditions(params);
    ListQueryNumbered(TestimonialColumns, "testimonials", TestimonialFilters(params), TestimonialOrderText,
                      Truthy(params.limit));
    RunTestimonialQuery(rows, params);
  }

  /**
   * `listTestimonials`: builds the query, numbering the placeholder of each
   * supplied parameter from `paramIndex`, and runs it.
   */
  method ListTestimonials(rows: seq<Testimonial>, params: ListTestimonialsParams)
    returns (query: seq<Clause>, queryParams: seq<SqlValue>, testimonials: seq<Testimonial>)
    ensures query == TestimonialQuery(params)
    ensures queryParams == TestimonialArgs(params)
    ensures Placeholders(query) == Numbered(|queryParams|)
    ensures testimonials == TestimonialListing(rows, params)
  {
    ghost var filters: seq<string> := [];
    query := [SelectWhereTrue(TestimonialColumns, "testimonials")];
    queryParams := [];
    var paramIndex := 1;

    if params.featured.Some? {
      FilterClausesSnoc(filters, "featured", 1);
      query := query + [AndEquals("featured", paramIndex)];
      queryParams := queryParams + [Bool(params.featured.value)];
      paramIndex := paramIndex + 1;
      filters := filters + ["featured"];
    }
    assert filters == TestimonialFilters(params) && paramIndex == |filters| + 1;
    ghost var filtered := query;
    assert filtered == [SelectWhereTrue(TestimonialColumns, "testimonials")] + FilterClauses(filters, 1);

    query := query + [OrderBy(TestimonialOrderText)];

    if params.limit.Some? && params.limit.value != 0 {
      query := query + [Limit(paramIndex)];
      queryParams := queryParams + [Int(params.limit.value)];
    }
    assert query == filtered + [OrderBy(TestimonialOrderText)]
                  + (if Truthy(params.limit) then [Limit(|filters| + 1)] else []);

    assert query == TestimonialQuery(params);
    BuiltTestimonialQuery(rows, params, query, queryParams);
    testimonials := Run(query, queryParams, rows, TestimonialColumn, TestimonialBefore);
  }

  // ------------------------------------------------------------ admin writes

  /** The body of `POST /admin/testimonials` (and of the update, with an id). */
  datatype TestimonialRequest = TestimonialRequest(
    clientName: string, clientRole: Option<string>, content: string, rating: Option<int>, featured: bool)

  /**
   * `createTestimonial`: inserts one row with the request's fields as given;
   * the rating is not range-checked.
   */
  method CreateTestimonial(db: Database, req: TestimonialRequest, now: Timestamp) returns (resp: Created)
    requires db.Valid()
    modifies db`testimonials, db`nextTestimonialId
    ensures db.Valid()
    ensures resp.id == old(db.nextTestimonialId)
    ensures forall i :: 0 <= i < |old(db.testimonials)| ==> old(db.testimonials)[i].id != resp.id
    ensures db.testimonials == old(db.testimonials) + [Testimonial(
      resp.id, req.clientName, req.clientRole, req.content, req.rating, req.featured, now)]
    ensures resp.message == "Testimonial created successfully"
  {
    var id := db.nextTestimonialId;
    db.testimonials := db.testimonials + [Testimonial(
      id, req.clientName, req.clientRole, req.content, req.rating, req.featured, now)];
    db.nextTestimonialId := id + 1;
    resp := Created(id, "Testimonial created successfully");
  }

  /**
   * `UPDATE testimonials SET <five columns> WHERE id = $id`: an absent role
   * or rating becomes NULL; id and `created_at` are kept.
   */
  function UpdatedTestimonials(rows: seq<Testimonial>, id: int, req: TestimonialRequest)
    : (r: seq<Testimonial>)
    ensures |r| == |rows|
    ensures forall i :: 0 <= i < |rows| && rows[i].id != id ==> r[i] == rows[i]
    ensures forall i :: 0 <= i < |rows| && rows[i].id == id ==> r[i] == Testimonial(
      rows[i].id, req.clientName, req.clientRole, req.content, req.rating, req.featured, rows[i].createdAt)
    ensures (forall i :: 0 <= i < |rows| ==> rows[i].id != id) ==> r == rows
  {
    seq(|rows|, i requires 0 <= i < |rows| =>
      if rows[i].id == id then rows[i].(clientName := req.clientName, clientRole := req.clientRole,
        content := req.content, rating := req.rating, featured := req.featured)
      else rows[i])
  }

  /** Sending the same update twice leaves the table as sending it once. */
  lemma UpdateTestimonialIdempotent(rows: seq<Testimonial>, id: int, req: TestimonialRequest)
    ensures UpdatedTestimonials(UpdatedTestimonials(rows, id, req), id, req) == UpdatedTestimonials(rows, id, req)
  {
  }

  /** `updateTestimonial`: a silent success even when no row has the id. */
  method UpdateTestimonial(db: Database, id: int, req: TestimonialRequest) returns (resp: Done)
    requires db.Valid()
    modifies db`testimonials
    ensures db.Valid()
    ensures db.testimonials == UpdatedTestimonials(old(db.testimonials), id, req)
    ensures resp.message == "Testimonial updated successfully"
  {
    db.testimonials := UpdatedTestimonials(db.testimonials, id, req);
    resp := Done("Testimonial updated successfully");
  }

  /** `DELETE FROM testimonials WHERE id = $id`. */
  function WithoutTestimonial(rows: seq<Testimonial>, id: int): (r: seq<Testimonial>)
    ensures forall k :: 0 <= k < |r| ==> r[k].id != id && r[k] in rows
    ensures forall k :: 0 <= k < |rows| && rows[k].id != id ==> rows[k] in r
    ensures (forall k :: 0 <= k < |rows| ==> rows[k].id != id) ==> r == rows
    ensures forall x :: multiset(r)[x] == if x.id == id then 0 else multiset(rows)[x]
  {
    FilterCount(rows, (t: Testimonial) => t.id != id);
    Filter(rows, (t: Testimonial) => t.id != id)
  }

  /**
   * The surviving rows keep their order: deleting from two runs of rows one
   * after the other is deleting from each, and a single row survives exactly
   * when its id differs.
   */
  lemma DeleteTestimonialKeepsOrder(a: seq<Testimonial>, b: seq<Testimonial>, id: int)
    ensures WithoutTestimonial(a + b, id) == WithoutTestimonial(a, id) + WithoutTestimonial(b, id)
    ensures |a| == 1 ==> WithoutTestimonial(a, id) == if a[0].id == id then [] else a
  {
    FilterAppend(a, b, (t: Testimonial) => t.id != id);
  }

  lemma {:induction false} DeleteTestimonialIdempotent(rows: seq<Testimonial>, id: int)
    ensures WithoutTestimonial(WithoutTestimonial(rows, id), id) == WithoutTestimonial(rows, id)
  {
    FilterIdempotent(rows, (t: Testimonial) => t.id != id);
  }

  /** `deleteTestimonial`: a hard delete, a silent success for an unknown id. */
  method DeleteTestimonial(db: Database, id: int) returns (resp: Done)
    requires db.Valid()
    modifies db`testimonials
    ensures db.Valid()
    ensures db.testimonials == WithoutTestimonial(old(db.testimonials), id)
    ensures resp.message == "Testimonial deleted successfully"
  {
    db.testimonials := WithoutTestimonial(db.testimonials, id);
    resp := Done("Testimonial deleted successfully");
  }
}
