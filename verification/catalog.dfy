/**
 * The product catalogue as the cashier screen and the products screen show
 * it: the category list built from the loaded products, the category filter,
 * and page-by-page display.
 */
module Catalog {
  import opened Wrappers

  /** A product as the product API returns it; `category` and `imageUrl` may be null. */
  datatype Product = Product(id: int, name: string, price: Numeric, category: Option<string>, imageUrl: Option<string>)

  /** The pseudo-category that selects every product. */
  const ALL: string := "all"

  /** Products per page on the cashier screen and on the products screen. */
  const CASHIER_PAGE_SIZE: nat := 9
  const PRODUCTS_PAGE_SIZE: nat := 10

  // ---------------------------------------------------------------------
  // Category list
  // ---------------------------------------------------------------------

  /** One step of the `forEach`: a truthy category not yet listed is appended. */
  function AddCategory(cats: seq<string>, p: Product): seq<string>
  {
    if p.category.Some? && p.category.value != "" && p.category.value !in cats
    then cats + [p.category.value]
    else cats
  }

  /** The category list after visiting every product in order, starting from `["all"]`. */
  function Categories(ps: seq<Product>): seq<string>
  {
    if ps == [] then [ALL] else AddCategory(Categories(ps[..|ps| - 1]), ps[|ps| - 1])
  }

  /** Builds the category list with a loop, as the product loaders do. */
  method CollectCategories(ps: seq<Product>) returns (cats: seq<string>)
    ensures cats == Categories(ps)
  {
    cats := [ALL];
    var i := 0;
    while i < |ps|
      invariant 0 <= i <= |ps|
      invariant cats == Categories(ps[..i])
    {
      var p := ps[i];
      if p.category.Some? && p.category.value != "" && p.category.value !in cats {
        cats := cats + [p.category.value];
      }
      assert ps[..i + 1][..i] == ps[..i];
      i := i + 1;
    }
    assert ps[..i] == ps;
  }

  /** Some product carries category `c`. */
  predicate HasCategory(ps: seq<Product>, c: string)
  {
    exists i :: 0 <= i < |ps| && ps[i].category == Some(c)
  }

  predicate NoDuplicates(s: seq<string>)
  {
    forall i, j :: 0 <= i < j < |s| ==> s[i] != s[j]
  }

  /** The index of the first product carrying category `c`, or `|ps|` when none does. */
  function FirstIndex(ps: seq<Product>, c: string): (k: nat)
    ensures k <= |ps|
    ensures k < |ps| ==> ps[k].category == Some(c)
    ensures forall i :: 0 <= i < k ==> ps[i].category != Some(c)
  {
    if ps == [] then 0
    else
      var k := FirstIndex(ps[..|ps| - 1], c);
      if k < |ps| - 1 then k
      else if ps[|ps| - 1].category == Some(c) then |ps| - 1
      else |ps|
  }

  /**
   * The category list starts with "all", lists each non-empty category of
   * the products exactly once, and nothing else.
   */
  lemma {:induction false} CategoriesContent(ps: seq<Product>)
    ensures var cats := Categories(ps);
      |cats| >= 1 && cats[0] == ALL && NoDuplicates(cats) &&
      forall c :: c in cats <==> c == ALL || (c != "" && HasCategory(ps, c))
  {
    if ps != [] {
      var init, p := ps[..|ps| - 1], ps[|ps| - 1];
      CategoriesContent(init);
      forall c
        ensures HasCategory(ps, c) <==> HasCategory(init, c) || p.category == Some(c)
      {
        if HasCategory(ps, c) {
          var i :| 0 <= i < |ps| && ps[i].category == Some(c);
          if i < |ps| - 1 {
            assert init[i] == ps[i];
          }
        }
        if HasCategory(init, c) {
          var i :| 0 <= i < |init| && init[i].category == Some(c);
          assert ps[i] == init[i];
        }
        if p.category == Some(c) {
          assert ps[|ps| - 1] == p;
        }
      }
    }
  }

  /** Categories are listed in the order in which they first appear among the products. */
  lemma {:induction false} CategoriesFirstAppearanceOrder(ps: seq<Product>)
    ensures var cats := Categories(ps);
      forall i, j :: 1 <= i < j < |cats| ==> FirstIndex(ps, cats[i]) < FirstIndex(ps, cats[j])
  {
    if ps != [] {
      var init, p := ps[..|ps| - 1], ps[|ps| - 1];
      var before, cats := Categories(init), Categories(ps);
      CategoriesFirstAppearanceOrder(init);
      CategoriesContent(init);
      CategoriesContent(ps);
      assert |before| <= |cats| && cats[..|before|] == before;
      forall k | 1 <= k < |before|
        ensures FirstIndex(ps, before[k]) == FirstIndex(init, before[k]) < |init|
      {
        var c := before[k];
        assert c != ALL && c in before;
        assert HasCategory(init, c);
        var i :| 0 <= i < |init| && init[i].category == Some(c);
      }
      if |cats| > |before| {
        var c := cats[|cats| - 1];
        assert c == p.category.value && c !in before;
        assert !HasCategory(init, c);
        assert FirstIndex(ps, c) == |init|;
      }
    }
  }

  // ---------------------------------------------------------------------
  // Category filter
  // ---------------------------------------------------------------------

  /** The products whose category is exactly `c`, in their original order. */
  function WithCategory(ps: seq<Product>, c: string): (r: seq<Product>)
    ensures |r| <= |ps|
    ensures forall p :: p in r <==> p in ps && p.category == Some(c)
  {
    if ps == [] then []
    else
      var rest := WithCategory(ps[..|ps| - 1], c);
      assert forall p :: p in ps <==> p in ps[..|ps| - 1] || p == ps[|ps| - 1];
      if ps[|ps| - 1].category == Some(c) then rest + [ps[|ps| - 1]] else rest
  }

  /** Filtering a concatenation filters each part: the filter keeps the products' relative order. */
  lemma {:induction false} WithCategoryAppend(a: seq<Product>, b: seq<Product>, c: string)
    ensures WithCategory(a + b, c) == WithCategory(a, c) + WithCategory(b, c)
  {
    if b != [] {
      assert (a + b)[..|a + b| - 1] == a + b[..|b| - 1];
      WithCategoryAppend(a, b[..|b| - 1], c);
    } else {
      assert a + b == a;
    }
  }

  /** The selected category's products: every product for "all", otherwise those whose category equals it. */
  function FilterByCategory(ps: seq<Product>, selected: string): (r: seq<Product>)
    ensures selected == ALL ==> r == ps
    ensures selected != ALL ==> forall p :: p in r <==> p in ps && p.category == Some(selected)
  {
    if selected == ALL then ps else WithCategory(ps, selected)
  }

  // ---------------------------------------------------------------------
  // Pagination
  // ---------------------------------------------------------------------

  /** `Math.max(1, Math.ceil(n / pageSize))`: the fewest pages, at least one, that hold n items. */
  function TotalPages(n: nat, pageSize: nat): (t: nat)
    requires pageSize >= 1
    ensures t >= 1 && n <= t * pageSize
    ensures n == 0 || (t - 1) * pageSize < n
  {
    if n == 0 then 1 else (n + pageSize - 1) / pageSize
  }

  /** JavaScript's `xs.slice(start, end)`, negative positions counting from the end. */
  function Slice<T>(xs: seq<T>, start: int, end: int): (r: seq<T>)
    ensures |r| <= |xs|
  {
    var from := if start < 0 then (if |xs| + start < 0 then 0 else |xs| + start)
                else if start > |xs| then |xs| else start;
    var to := if end < 0 then (if |xs| + end < 0 then 0 else |xs| + end)
              else if end > |xs| then |xs| else end;
    if from < to then xs[from..to] else []
  }

  /** A slice between two non-negative positions is the sub-sequence between them, cut off at the end. */
  lemma SliceWithin<T>(xs: seq<T>, start: nat, end: nat)
    requires start <= end
    ensures Slice(xs, start, end) == xs[(if start <= |xs| then start else |xs|)..(if end <= |xs| then end else |xs|)]
  {
  }

  /** `r` holds the items of `xs` from position `start` on: `len` of them, or as many as are left. */
  ghost predicate IsRunAt<T>(r: seq<T>, xs: seq<T>, start: int, len: nat)
  {
    && |r| <= len
    && (forall i :: 0 <= i < |r| ==> 0 <= start + i < |xs| && r[i] == xs[start + i])
    && (0 <= start ==> |r| == if start + len <= |xs| then len else if start <= |xs| then |xs| - start else 0)
  }

  /** A slice of `len` positions from a non-negative start is such a run. */
  lemma SliceRun<T>(xs: seq<T>, start: int, len: nat)
    requires start >= 0
    ensures IsRunAt(Slice(xs, start, start + len), xs, start, len)
  {
    SliceWithin(xs, start, start + len);
  }

  /** Where a 1-based page starts and where the next one does. */
  lemma PageStart(page: int, pageSize: nat)
    requires page >= 1
    ensures (page - 1) * pageSize >= 0 && page * pageSize == (page - 1) * pageSize + pageSize
  {
  }

  /** The items shown on a 1-based page: the slice from `(page - 1) * pageSize` of length `pageSize`. */
  function PageSlice<T>(xs: seq<T>, page: int, pageSize: nat): (r: seq<T>)
    requires pageSize >= 1
    ensures page >= 1 ==> IsRunAt(r, xs, (page - 1) * pageSize, pageSize)
  {
    var start := (page - 1) * pageSize;
    if page >= 1 then
      PageStart(page, pageSize);
      SliceRun(xs, start, pageSize);
      Slice(xs, start, start + pageSize)
    else
      Slice(xs, start, start + pageSize)
  }

  /** Pages 1 to k, one after the other. */
  function Pages<T>(xs: seq<T>, pageSize: nat, k: nat): seq<T>
    requires pageSize >= 1
  {
    if k == 0 then [] else Pages(xs, pageSize, k - 1) + PageSlice(xs, k, pageSize)
  }

  lemma {:induction false} PagesPrefix<T>(xs: seq<T>, pageSize: nat, k: nat)
    requires pageSize >= 1
    ensures Pages(xs, pageSize, k) == xs[..if k * pageSize <= |xs| then k * pageSize else |xs|]
  {
    if k > 0 {
      PagesPrefix(xs, pageSize, k - 1);
      PageStart(k, pageSize);
      PagesStep(xs, pageSize, k, (k - 1) * pageSize);
    }
  }

  /** Page k continues the first k - 1 pages from where they stop. */
  lemma PagesStep<T>(xs: seq<T>, pageSize: nat, k: nat, start: nat)
    requires pageSize >= 1 && k >= 1 && start == (k - 1) * pageSize
    requires Pages(xs, pageSize, k - 1) == xs[..if start <= |xs| then start else |xs|]
    ensures Pages(xs, pageSize, k) == xs[..if start + pageSize <= |xs| then start + pageSize else |xs|]
  {
    var lo := if start <= |xs| then start else |xs|;
    var hi := if start + pageSize <= |xs| then start + pageSize else |xs|;
    SliceWithin(xs, start, start + pageSize);
    assert PageSlice(xs, k, pageSize) == xs[lo..hi];
    assert xs[..hi] == xs[..lo] + xs[lo..hi];
  }

  /** Reading pages 1 to TotalPages in turn shows every item exactly once, in order. */
  lemma PagesCoverAll<T>(xs: seq<T>, pageSize: nat)
    requires pageSize >= 1
    ensures Pages(xs, pageSize, TotalPages(|xs|, pageSize)) == xs
  {
    PagesPrefix(xs, pageSize, TotalPages(|xs|, pageSize));
  }

  /**
   * The cashier screen's page: the requested page clamped to the last page
   * (`Math.min(currentPage, totalPages)`) before slicing.
   */
  function VisiblePage<T>(xs: seq<T>, currentPage: int, pageSize: nat): (r: seq<T>)
    requires pageSize >= 1
  {
    var total := TotalPages(|xs|, pageSize);
    PageSlice(xs, if currentPage < total then currentPage else total, pageSize)
  }

  /** Because of the clamp, a non-empty list never shows an empty page. */
  lemma VisiblePageNonEmpty<T>(xs: seq<T>, currentPage: int, pageSize: nat)
    requires pageSize >= 1 && currentPage >= 1 && xs != []
    ensures 1 <= |VisiblePage(xs, currentPage, pageSize)| <= pageSize
  {
    var total := TotalPages(|xs|, pageSize);
    var page := if currentPage < total then currentPage else total;
    assert VisiblePage(xs, currentPage, pageSize) == PageSlice(xs, page, pageSize);
    PageWithinList(|xs|, pageSize, page);
    RunNonEmpty(PageSlice(xs, page, pageSize), xs, (page - 1) * pageSize, pageSize);
  }

  /** Every page up to the last one starts inside a non-empty list. */
  lemma PageWithinList(n: nat, pageSize: nat, page: int)
    requires pageSize >= 1 && n > 0 && 1 <= page <= TotalPages(n, pageSize)
    ensures 0 <= (page - 1) * pageSize < n
  {
    var total := TotalPages(n, pageSize);
    assert (page - 1) * pageSize <= (total - 1) * pageSize by {
      ScaleMonotone(page - 1, total - 1, pageSize);
    }
  }

  lemma ScaleMonotone(a: nat, b: nat, c: nat)
    requires a <= b
    ensures a * c <= b * c
  {
  }

  /** A run that starts inside the list holds at least one item. */
  lemma RunNonEmpty<T>(r: seq<T>, xs: seq<T>, start: int, len: nat)
    requires IsRunAt(r, xs, start, len) && 0 <= start < |xs| && len >= 1
    ensures 1 <= |r| <= len
  {
  }

  /**
   * The products screen slices with its page number unclamped and does not
   * reset it when the category changes: a page left over from a longer list
   * shows nothing although the selected category has products.
   */
  lemma UnclampedPageCanBeEmpty(xs: seq<Product>)
    requires |xs| == 5
    ensures TotalPages(|xs|, PRODUCTS_PAGE_SIZE) == 1
    ensures PageSlice(xs, 3, PRODUCTS_PAGE_SIZE) == []
    ensures |VisiblePage(xs, 3, PRODUCTS_PAGE_SIZE)| == 5
  {
  }
}
