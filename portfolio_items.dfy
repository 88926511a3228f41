/**
 * Portfolio items: the public listing (`GET /portfolio`) and the admin
 * insert, full-row update and hard delete.
 */
module PortfolioItems {
  import opened Wrappers
  import opened Schema
  import opened Ordering
  import opened Sql

  /** A listed item: the item's columns joined with its category's name and slug. */
  datatype PortfolioEntry = PortfolioEntry(
    id: int, title: string, description: Option<string>, imageUrl: string,
    thumbnailUrl: Option<string>, categoryId: int, categoryName: string, categorySlug: string,
    featured: bool, sortOrder: int, createdAt: Timestamp)

  function Entry(p: PortfolioItem, c: Category): PortfolioEntry {
    PortfolioEntry(p.id, p.title, p.description, p.imageUrl, p.thumbnailUrl, p.categoryId,
                   c.name, c.slug, p.featured, p.sortOrder, p.createdAt)
  }

  /** `e` is the join of some stored item with a stored category whose id it references. */
  ghost predicate Joined(e: PortfolioEntry, items: seq<PortfolioItem>, cats: seq<Category>) {
    exists p, c :: p in items && c in cats && c.id == p.categoryId && e == Entry(p, c)
  }

  /** The join rows contributed by one item: one per category with its id. */
  function JoinOne(p: PortfolioItem, cats: seq<Category>): seq<PortfolioEntry> {
    if cats == [] then []
    else (if cats[0].id == p.categoryId then [Entry(p, cats[0])] else []) + JoinOne(p, cats[1..])
  }

  /** `portfolio_items p JOIN portfolio_categories c ON p.category_id = c.id` (an inner join). */
  function Join(items: seq<PortfolioItem>, cats: seq<Category>): seq<PortfolioEntry> {
    if items == [] then [] else JoinOne(items[0], cats) + Join(items[1..], cats)
  }

  lemma {:induction false} JoinOneSound(p: PortfolioItem, cats: seq<Category>, e: PortfolioEntry)
    requires e in JoinOne(p, cats)
    ensures exists c :: c in cats && c.id == p.categoryId && e == Entry(p, c)
  {
    if cats[0].id == p.categoryId && e == Entry(p, cats[0]) {
    } else {
      JoinOneSound(p, cats[1..], e);
      var c :| c in cats[1..] && c.id == p.categoryId && e == Entry(p, c);
    }
  }

  lemma {:induction false} JoinOneComplete(p: PortfolioItem, cats: seq<Category>, c: Category)
    requires c in cats && c.id == p.categoryId
    ensures Entry(p, c) in JoinOne(p, cats)
  {
    if cats[0] != c {
      JoinOneComplete(p, cats[1..], c);
    }
  }

  /** Every joined row pairs a stored item with a stored category it references. */
  lemma {:induction false} JoinSound(items: seq<PortfolioItem>, cats: seq<Category>, e: PortfolioEntry)
    requires e in Join(items, cats)
    ensures Joined(e, items, cats)
  {
    if e in JoinOne(items[0], cats) {
      JoinOneSound(items[0], cats, e);
      var c :| c in cats && c.id == items[0].categoryId && e == Entry(items[0], c);
    } else {
      JoinSound(items[1..], cats, e);
      var p, c :| p in items[1..] && c in cats && c.id == p.categoryId && e == Entry(p, c);
    }
  }

  /** Every stored item appears once per stored category with its category id. */
  lemma {:induction false} JoinComplete(items: seq<PortfolioItem>, cats: seq<Category>,
                                        p: PortfolioItem, c: Category)
    requires p in items && c in cats && c.id == p.categoryId
    ensures Entry(p, c) in Join(items, cats)
  {
    if items[0] == p {
      JoinOneComplete(p, cats, c);
    } else {
      JoinComplete(items[1..], cats, p, c);
    }
  }

  /** An item whose category id matches no category is never listed. */
  lemma OrphanNotJoined(items: seq<PortfolioItem>, cats: seq<Category>, p: PortfolioItem)
    requires forall k :: 0 <= k < |cats| ==> cats[k].id != p.categoryId
    ensures forall c :: Entry(p, c) !in Join(items, cats)
  {
    forall c | Entry(p, c) in Join(items, cats) ensures false {
      JoinSound(items, cats, Entry(p, c));
    }
  }

  /** The query-string parameters of `GET /portfolio`. */
  datatype ListPortfolioParams = ListPortfolioParams(
    category: Option<string>, featured: Option<bool>, limit: Option<nat>)

  /** `if (params.category)`: an absent or empty slug adds no condition. */
  predicate CategoryGiven(p: ListPortfolioParams) { p.category.Some? && p.category.value != "" }

  /** `if (params.featured)`: a truthiness test, so `false` adds no condition. */
  predicate FeaturedGiven(p: ListPortfolioParams) { p.featured == Some(true) }

  const PortfolioColumns: string :=
    "p.id, p.title, p.description, p.image_url, p.thumbnail_url, p.category_id, p.featured, "
    + "p.sort_order, p.created_at, c.name as category_name, c.slug as category_slug"

  const PortfolioFrom: string := "portfolio_items p JOIN portfolio_categories c ON p.category_id = c.id"

  const PortfolioOrder: string := "p.sort_order ASC, p.created_at DESC"

  /** The filtered columns, in the order the handler tests them. */
  function PortfolioFilters(p: ListPortfolioParams): seq<string> {
    (if CategoryGiven(p) then ["c.slug"] else []) + (if FeaturedGiven(p) then ["p.featured"] else [])
  }

  /** The query the handler builds; it depends only on which parameters are present. */
  function PortfolioQuery(p: ListPortfolioParams): seq<Clause> {
    ListQuery(PortfolioColumns, PortfolioFrom, PortfolioFilters(p), PortfolioOrder, Truthy(p.limit))
  }

  /** Requests that supply the same filters get the same SQL text; only the parameters differ. */
  lemma PortfolioQueryIgnoresValues(p: ListPortfolioParams, q: ListPortfolioParams)
    requires CategoryGiven(p) == CategoryGiven(q) && FeaturedGiven(p) == FeaturedGiven(q)
    requires Truthy(p.limit) == Truthy(q.limit)
    ensures QueryText(PortfolioQuery(p)) == QueryText(PortfolioQuery(q))
  {
    assert PortfolioFilters(p) == PortfolioFilters(q);
  }

  /** The parameters in placeholder order: category, featured, limit. */
  function PortfolioArgs(p: ListPortfolioParams): seq<SqlValue> {
    (if CategoryGiven(p) then [Text(p.category.value)] else [])
    + (if FeaturedGiven(p) then [Bool(true)] else [])
    + (if Truthy(p.limit) then [Int(p.limit.value)] else [])
  }

  /** The columns a condition of this query may name. */
  function PortfolioColumn(e: PortfolioEntry, column: string): Option<SqlValue> {
    if column == "c.slug" then Some(Text(e.categorySlug))
    else if column == "p.featured" then Some(Bool(e.featured))
    else None
  }

  /** `ORDER BY p.sort_order ASC, p.created_at DESC`. */
  predicate PortfolioBefore(a: PortfolioEntry, b: PortfolioEntry) {
    a.sortOrder < b.sortOrder || (a.sortOrder == b.sortOrder && a.createdAt >= b.createdAt)
  }

  lemma PortfolioOrderIsTotal()
    ensures TotalPreorder(PortfolioBefore)
  {
  }

  /** The filters the request asks for. */
  predicate PortfolioSelected(e: PortfolioEntry, p: ListPortfolioParams) {
    && (CategoryGiven(p) ==> e.categorySlug == p.category.value)
    && (FeaturedGiven(p) ==> e.featured)
  }

  /** `PortfolioSelected` as the engine's row filter. */
  function PortfolioKeep(p: ListPortfolioParams): PortfolioEntry -> bool {
    e => PortfolioSelected(e, p)
  }

  /** Every joined row the request's filters accept, in ORDER BY order. */
  function PortfolioMatches(items: seq<PortfolioItem>, cats: seq<Category>, p: ListPortfolioParams)
    : seq<PortfolioEntry>
  {
    SortBy(Filter(Join(items, cats), PortfolioKeep(p)), PortfolioBefore)
  }

  /**
   * The listing the endpoint promises: the matches, cut to the limit when it
   * is truthy.
   */
  function PortfolioListing(items: seq<PortfolioItem>, cats: seq<Category>, p: ListPortfolioParams)
    : seq<PortfolioEntry>
  {
    Limited(PortfolioMatches(items, cats, p), EffectiveLimit(p.limit))
  }

  /** Only joined rows that pass the requested filters are listed. */
  lemma PortfolioListingSound(items: seq<PortfolioItem>, cats: seq<Category>, p: ListPortfolioParams,
                              e: PortfolioEntry)
    requires e in PortfolioListing(items, cats, p)
    ensures Joined(e, items, cats)
    ensures CategoryGiven(p) ==> e.categorySlug == p.category.value
    ensures FeaturedGiven(p) ==> e.featured
  {
    SelectRowsSound(Join(items, cats), PortfolioKeep(p), PortfolioBefore,
                    EffectiveLimit(p.limit), e);
    JoinSound(items, cats, e);
  }

  /** Without a truthy limit, every joined row that passes the filters is listed. */
  lemma PortfolioListingComplete(items: seq<PortfolioItem>, cats: seq<Category>, p: ListPortfolioParams,
                                 item: PortfolioItem, c: Category)
    requires !Truthy(p.limit)
    requires item in items && c in cats && c.id == item.categoryId
    requires PortfolioSelected(Entry(item, c), p)
    ensures Entry(item, c) in PortfolioListing(items, cats, p)
  {
    JoinComplete(items, cats, item, c);
    SelectRowsComplete(Join(items, cats), PortfolioKeep(p), PortfolioBefore, Entry(item, c));
  }

  /** The listing is ordered by sort order, newest first among equal sort orders. */
  lemma PortfolioListingSorted(items: seq<PortfolioItem>, cats: seq<Category>, p: ListPortfolioParams)
    ensures Sorted(PortfolioListing(items, cats, p), PortfolioBefore)
  {
    PortfolioOrderIsTotal();
    SelectRowsSorted(Join(items, cats), PortfolioKeep(p), PortfolioBefore,
                     EffectiveLimit(p.limit));
  }

  /** A truthy limit keeps the first `limit` entries of the unlimited listing. */
  lemma PortfolioListingLimited(items: seq<PortfolioItem>, cats: seq<Category>, p: ListPortfolioParams)
    ensures Truthy(p.limit) ==> |PortfolioListing(items, cats, p)| <= p.limit.value
    ensures PortfolioListing(items, cats, p) <= PortfolioMatches(items, cats, p)
    ensures !Truthy(p.limit) ==> PortfolioListing(items, cats, p) == PortfolioMatches(items, cats, p)
  {
  }

  /** `featured=false` lists exactly what an absent `featured` lists. */
  lemma FeaturedFalseListsAll(items: seq<PortfolioItem>, cats: seq<Category>, p: ListPortfolioParams)
    ensures PortfolioListing(items, cats, p.(featured := Some(false)))
         == PortfolioListing(items, cats, p.(featured := None))
  {
    var rows := Join(items, cats);
    var q1 := p.(featured := Some(false));
    var q2 := p.(featured := None);
    var k1 := PortfolioKeep(q1);
    var k2 := PortfolioKeep(q2);
    assert forall i :: 0 <= i < |rows| ==> k1(rows[i]) == k2(rows[i]);
    FilterExtensional(rows, k1, k2);
    assert PortfolioMatches(items, cats, q1) == PortfolioMatches(items, cats, q2);
  }

  /** The bound conditions of the built query are exactly the requested filters. */
  lemma PortfolioConditions(p: ListPortfolioParams)
    ensures |PortfolioArgs(p)| == |PortfolioFilters(p)| + Count(Truthy(p.limit))
    ensures Bound(PortfolioQuery(p), |PortfolioArgs(p)|)
    ensures Conditions(PortfolioQuery(p), PortfolioArgs(p))
         == (if CategoryGiven(p) then [Condition("c.slug", Text(p.category.value))] else [])
          + (if FeaturedGiven(p) then [Condition("p.featured", Bool(true))] else [])
    ensures LimitOf(PortfolioQuery(p), PortfolioArgs(p)) == EffectiveLimit(p.limit)
  {
    var filters := PortfolioFilters(p);
    var args := PortfolioArgs(p);
    ListQueryBinds(PortfolioColumns, PortfolioFrom, filters, PortfolioOrder, Truthy(p.limit), args);
  }

  /** A row passes the built conditions exactly when it has the requested slug and flag. */
  lemma SatisfiesPortfolioFilters(e: PortfolioEntry, p: ListPortfolioParams)
    ensures Satisfies(e, (if CategoryGiven(p) then [Condition("c.slug", Text(p.category.value))] else [])
                       + (if FeaturedGiven(p) then [Condition("p.featured", Bool(true))] else []),
                      PortfolioColumn)
         == PortfolioSelected(e, p)
  {
    var conds := (if CategoryGiven(p) then [Condition("c.slug", Text(p.category.value))] else [])
               + (if FeaturedGiven(p) then [Condition("p.featured", Bool(true))] else []);
    var slug := CategoryGiven(p) && PortfolioColumn(e, "c.slug") == Some(Text(p.category.value));
    var flag := PortfolioColumn(e, "p.featured") == Some(Bool(true));
    if CategoryGiven(p) && FeaturedGiven(p) {
      assert conds == [Condition("c.slug", Text(p.category.value)), Condition("p.featured", Bool(true))];
      assert Satisfies(e, conds, PortfolioColumn) <==> slug && flag by {
        if Satisfies(e, conds, PortfolioColumn) {
          assert PortfolioColumn(e, conds[0].column) == Some(conds[0].value);
          assert PortfolioColumn(e, conds[1].column) == Some(conds[1].value);
        }
      }
    } else if CategoryGiven(p) {
      assert conds == [Condition("c.slug", Text(p.category.value))];
      assert Satisfies(e, conds, PortfolioColumn) <==> slug by {
        if Satisfies(e, conds, PortfolioColumn) {
          assert PortfolioColumn(e, conds[0].column) == Some(conds[0].value);
        }
      }
    } else if FeaturedGiven(p) {
      assert conds == [Condition("p.featured", Bool(true))];
      assert Satisfies(e, conds, PortfolioColumn) <==> flag by {
        if Satisfies(e, conds, PortfolioColumn) {
          assert PortfolioColumn(e, conds[0].column) == Some(conds[0].value);
        }
      }
    }
  }

  /** The engine, run on the query the handler builds, returns exactly the listing. */
  lemma RunPortfolioQuery(items: seq<PortfolioItem>, cats: seq<Category>, p: ListPortfolioParams)
    ensures Bound(PortfolioQuery(p), |PortfolioArgs(p)|)
    ensures Run(PortfolioQuery(p), PortfolioArgs(p), Join(items, cats), PortfolioColumn, PortfolioBefore)
         == PortfolioListing(items, cats, p)
  {
    PortfolioConditions(p);
    var conds := Conditions(PortfolioQuery(p), PortfolioArgs(p));
    var rows := Join(items, cats);
    forall i | 0 <= i < |rows|
      ensures Satisfies(rows[i], conds, PortfolioColumn) == PortfolioSelected(rows[i], p)
    {
      SatisfiesPortfolioFilters(rows[i], p);
    }
    SelectRowsExtensional(rows, r => Satisfies(r, conds, PortfolioColumn),
                          PortfolioKeep(p), PortfolioBefore, EffectiveLimit(p.limit));
  }

  /** What the built query and parameters mean, in the terms the handler's caller sees. */
  lemma BuiltPortfolioQuery(items: seq<PortfolioItem>, cats: seq<Category>, params: ListPortfolioParams,
                            query: seq<Clause>, queryParams: seq<SqlValue>)
    requires query == PortfolioQuery(params) && queryParams == PortfolioArgs(params)
    ensures Placeholders(query) == Numbered(|queryParams|)
    ensures Bound(query, |queryParams|)
    ensures Run(query, queryParams, Join(items, cats), PortfolioColumn, PortfolioBefore)
         == PortfolioListing(items, cats, params)
  {
    PortfolioConditions(params);
    ListQueryNumbered(PortfolioColumns, PortfolioFrom, PortfolioFilters(params), PortfolioOrder,
                      Truthy(params.limit));
    RunPortfolioQuery(items, cats, params);
  }

  /**
   * `listPortfolio`: builds the query one filter at a time, numbering each
   * placeholder from `paramIndex`, and runs it.
   */
  method ListPortfolio(items: seq<PortfolioItem>, cats: seq<Category>, params: ListPortfolioParams)
    returns (query: seq<Clause>, queryParams: seq<SqlValue>, entries: seq<PortfolioEntry>)
    ensures query == PortfolioQuery(params)
    ensures queryParams == PortfolioArgs(params)
    ensures Placeholders(query) == Numbered(|queryParams|)
    ensures entries == PortfolioListing(items, cats, params)
  {
    ghost var filters: seq<string> := [];
    query := [SelectWhereTrue(PortfolioColumns, PortfolioFrom)];
    queryParams := [];
    var paramIndex := 1;

    if params.category.Some? && params.category.value != "" {
      FilterClausesSnoc(filters, "c.slug", 1);
      query := query + [AndEquals("c.slug", paramIndex)];
      queryParams := queryParams + [Text(params.category.value)];
      paramIndex := paramIndex + 1;
      filters := filters + ["c.slug"];
    }
    assert query == [SelectWhereTrue(PortfolioColumns, PortfolioFrom)] + FilterClauses(filters, 1);

    if params.featured == Some(true) {
      FilterClausesSnoc(filters, "p.featured", 1);
      query := query + [AndEquals("p.featured", paramIndex)];
      queryParams := queryParams + [Bool(params.featured.value)];
      paramIndex := paramIndex + 1;
      filters := filters + ["p.featured"];
    }
    assert filters == PortfolioFilters(params);
    assert paramIndex == |filters| + 1;
    ghost var filtered := query;
    assert filtered == [SelectWhereTrue(PortfolioColumns, PortfolioFrom)] + FilterClauses(filters, 1);
    assert queryParams == (if CategoryGiven(params) then [Text(params.category.value)] else [])
                        + (if FeaturedGiven(params) then [Bool(true)] else []);

    query := query + [OrderBy(PortfolioOrder)];

    if params.limit.Some? && params.limit.value != 0 {
      query := query + [Limit(paramIndex)];
      queryParams := queryParams + [Int(params.limit.value)];
    }
    assert query == filtered + [OrderBy(PortfolioOrder)]
                  + (if Truthy(params.limit) then [Limit(|filters| + 1)] else []);

    assert query == PortfolioQuery(params);
    BuiltPortfolioQuery(items, cats, params, query, queryParams);
    entries := Run(query, queryParams, Join(items, cats), PortfolioColumn, PortfolioBefore);
  }

  /** The body of `POST /admin/portfolio` (and of the update, with an id). */
  datatype PortfolioItemRequest = PortfolioItemRequest(
    title: string, description: Option<string>, imageUrl: string, thumbnailUrl: Option<string>,
    categoryId: int, featured: bool, sortOrder: int)

  /**
   * `createPortfolioItem`: inserts one row with the request's fields as
   * given (no category or range check) and returns the serial id.
   */
  method CreatePortfolioItem(db: Database, req: PortfolioItemRequest, now: Timestamp)
    returns (resp: Created)
    requires db.Valid()
    modifies db`portfolioItems, db`nextPortfolioId
    ensures db.Valid()
    ensures resp.id == old(db.nextPortfolioId)
    ensures forall i :: 0 <= i < |old(db.portfolioItems)| ==> old(db.portfolioItems)[i].id != resp.id
    ensures db.portfolioItems == old(db.portfolioItems) + [PortfolioItem(
      resp.id, req.title, req.description, req.imageUrl, req.thumbnailUrl, req.categoryId,
      req.featured, req.sortOrder, now)]
    ensures resp.message == "Portfolio item created successfully"
  {
    var id := db.nextPortfolioId;
    db.portfolioItems := db.portfolioItems + [PortfolioItem(
      id, req.title, req.description, req.imageUrl, req.thumbnailUrl, req.categoryId,
      req.featured, req.sortOrder, now)];
    db.nextPortfolioId := id + 1;
    resp := Created(id, "Portfolio item created successfully");
  }

  /**
   * `UPDATE portfolio_items SET <all seven columns> WHERE id = $id`: every
   * row with that id gets the request's columns (an absent description or
   * thumbnail becomes NULL) and keeps its id and created_at.
   */
  function UpdatedPortfolioItems(rows: seq<PortfolioItem>, id: int, req: PortfolioItemRequest)
    : (r: seq<PortfolioItem>)
    ensures |r| == |rows|
    ensures forall i :: 0 <= i < |rows| && rows[i].id != id ==> r[i] == rows[i]
    ensures forall i :: 0 <= i < |rows| && rows[i].id == id ==> r[i] == PortfolioItem(
      rows[i].id, req.title, req.description, req.imageUrl, req.thumbnailUrl, req.categoryId,
      req.featured, req.sortOrder, rows[i].createdAt)
    ensures (forall i :: 0 <= i < |rows| ==> rows[i].id != id) ==> r == rows
  {
    seq(|rows|, i requires 0 <= i < |rows| =>
      if rows[i].id == id then rows[i].(title := req.title, description := req.description,
        imageUrl := req.imageUrl, thumbnailUrl := req.thumbnailUrl, categoryId := req.categoryId,
        featured := req.featured, sortOrder := req.sortOrder)
      else rows[i])
  }

  /** Sending the same update twice leaves the table as sending it once. */
  lemma UpdatePortfolioIdempotent(rows: seq<PortfolioItem>, id: int, req: PortfolioItemRequest)
    ensures UpdatedPortfolioItems(UpdatedPortfolioItems(rows, id, req), id, req)
         == UpdatedPortfolioItems(rows, id, req)
  {
  }

  /** `updatePortfolioItem`: a silent success even when no row has the id. */
  method UpdatePortfolioItem(db: Database, id: int, req: PortfolioItemRequest) returns (resp: Done)
    requires db.Valid()
    modifies db`portfolioItems
    ensures db.Valid()
    ensures db.portfolioItems == UpdatedPortfolioItems(old(db.portfolioItems), id, req)
    ensures resp.message == "Portfolio item updated successfully"
  {
    db.portfolioItems := UpdatedPortfolioItems(db.portfolioItems, id, req);
    resp := Done("Portfolio item updated successfully");
  }

  /** `DELETE FROM portfolio_items WHERE id = $id`. */
  function WithoutPortfolioItem(rows: seq<PortfolioItem>, id: int): (r: seq<PortfolioItem>)
    ensures forall k :: 0 <= k < |r| ==> r[k].id != id && r[k] in rows
    ensures forall k :: 0 <= k < |rows| && rows[k].id != id ==> rows[k] in r
    ensures (forall k :: 0 <= k < |rows| ==> rows[k].id != id) ==> r == rows
    ensures forall x :: multiset(r)[x] == if x.id == id then 0 else multiset(rows)[x]
  {
    FilterCount(rows, (p: PortfolioItem) => p.id != id);
    Filter(rows, (p: PortfolioItem) => p.id != id)
  }

  /**
   * The surviving rows keep their order: deleting from two runs of rows one
   * after the other is deleting from each, and a single row survives exactly
   * when its id differs.
   */
  lemma DeletePortfolioKeepsOrder(a: seq<PortfolioItem>, b: seq<PortfolioItem>, id: int)
    ensures WithoutPortfolioItem(a + b, id) == WithoutPortfolioItem(a, id) + WithoutPortfolioItem(b, id)
    ensures |a| == 1 ==> WithoutPortfolioItem(a, id) == if a[0].id == id then [] else a
  {
    FilterAppend(a, b, (p: PortfolioItem) => p.id != id);
  }

  lemma {:induction false} DeletePortfolioIdempotent(rows: seq<PortfolioItem>, id: int)
    ensures WithoutPortfolioItem(WithoutPortfolioItem(rows, id), id) == WithoutPortfolioItem(rows, id)
  {
    FilterIdempotent(rows, (p: PortfolioItem) => p.id != id);
  }

  /** `deletePortfolioItem`: a hard delete, a silent success for an unknown id. */
  method DeletePortfolioItem(db: Database, id: int) returns (resp: Done)
    requires db.Valid()
    modifies db`portfolioItems
    ensures db.Valid()
    ensures db.portfolioItems == WithoutPortfolioItem(old(db.portfolioItems), id)
    ensures resp.message == "Portfolio item deleted successfully"
  {
    db.portfolioItems := WithoutPortfolioItem(db.portfolioItems, id);
    resp := Done("Portfolio item deleted successfully");
  }
}
