/** Portfolio categories: the public listing (`GET /portfolio/categories`). */
module Categories {
  import opened Schema
  import opened Ordering

  /** `ORDER BY name ASC`, under a byte-wise collation. */
  predicate ByName(a: Category, b: Category) {
    StringLe(a.name, b.name)
  }

  lemma ByNameIsTotal()
    ensures TotalPreorder(ByName)
  {
    forall a: Category, b: Category ensures ByName(a, b) || ByName(b, a) {
      StringLeTotal(a.name, b.name);
    }
    forall a: Category, b: Category, c: Category | ByName(a, b) && ByName(b, c) ensures ByName(a, c) {
      StringLeTransitive(a.name, b.name, c.name);
    }
  }

  /** `listCategories`: every category, with no filter and no limit, sorted by name. */
  function ListCategories(cats: seq<Category>): (r: seq<Category>)
    ensures multiset(r) == multiset(cats) && |r| == |cats|
  {
    SortBy(cats, ByName)
  }

  /** The listing is the whole table, reordered by name. */
  lemma ListCategoriesPermutesAndSorts(cats: seq<Category>)
    ensures multiset(ListCategories(cats)) == multiset(cats)
    ensures Sorted(ListCategories(cats), ByName)
    ensures forall i :: 0 <= i < |cats| ==> cats[i] in ListCategories(cats)
  {
    ByNameIsTotal();
    SortBySorted(cats, ByName);
    forall i | 0 <= i < |cats| ensures cats[i] in ListCategories(cats) {
      assert cats[i] in multiset(ListCategories(cats));
    }
  }
}
