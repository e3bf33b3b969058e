/**
 * The cashier screen's state and event handlers: the selected table, the
 * invoice being built, the customer's name, the product grid (category and
 * page) and checkout. Network replies, the clock and user input arrive as
 * parameters.
 */
module Register {
  import opened Wrappers
  import opened Text
  import opened Catalog
  import opened Ledger
  import opened Drafts

  /** A billiard table as the table list returns it; an empty name is shown as "Bàn {id}". */
  datatype Table = Table(id: int, name: string)

  /**
   * A session timestamp field of the table detail reply: missing, `null`, or
   * a text together with the epoch milliseconds `new Date(text)` gives for
   * it (`None` for an invalid date).
   */
  datatype TimeField = Missing | Null | Text(text: string, epochMs: Option<int>)

  /** The table's current session in the table detail reply; a missing or null `total` is `None`. */
  datatype Session = Session(startTime: TimeField, endTime: TimeField, total: Option<Numeric>)

  /** The table detail request: failed, or answered with the current session (possibly none). */
  datatype TableDetail = DetailFailed | Detail(currentSession: Option<Session>)

  /** The invoice creation request: failed, or answered with the new invoice's id (`None` when the reply has none). */
  datatype PostReply = PostFailed | Created(invoiceId: Option<int>)

  datatype CheckoutOutcome = NeedTable | NeedItems | CheckoutFailed | CheckedOut(invoiceId: Option<int>)

  datatype RequestItem = RequestItem(productId: Option<int>, productName: string, quantity: int, price: Numeric)

  /** The body posted to create an invoice. */
  datatype CheckoutRequest = CheckoutRequest(
    tableId: int,
    customerName: Option<string>,
    items: seq<RequestItem>,
    discountPercent: real,
    taxPercent: real)

  /** The name the table-fee line uses: the table's name, or "Bàn {id}" when it has none. */
  function TableLabel(t: Table): string
  {
    if t.name != "" then t.name else "Bàn " + (if t.id < 0 then "-" + NatToString(-t.id) else NatToString(t.id))
  }

  /** `new Date(value)` for a timestamp field: a missing field is an invalid date, null is the epoch, a text is its conversion. */
  function DateOf(t: TimeField): Option<int>
  {
    if t.Missing? then None else if t.Null? then Some(0) else t.epochMs
  }

  /** JavaScript truthiness of a timestamp field: only a non-empty text. */
  predicate Truthy(t: TimeField)
  {
    t.Text? && t.text != ""
  }

  /** The invoice a newly selected table starts with: one fee line when its session is closed and has a total. */
  function InitialItems(table: Table, s: Option<Session>, now: int): (items: seq<LineItem>)
    ensures |items| <= 1
    ensures |items| == 1 <==> s.Some? && Truthy(s.value.endTime) && s.value.total.Some?
    ensures |items| == 1 ==> items[0].tableFee && items[0].lineTotal == Finite(OrZero(s.value.total.value))
    ensures |items| == 1 ==> StartsWith(items[0].productName, TableLabel(table) + " - ")
    ensures |items| == 1 && DateOf(s.value.startTime).None? ==> items[0].productName == TableLabel(table) + " - NaNp"
  {
    if s.Some? && Truthy(s.value.endTime) && s.value.total.Some? then
      [TableFeeItem(TableLabel(table), DateOf(s.value.startTime), DateOf(s.value.endTime), s.value.total.value, now)]
    else []
  }

  /**
   * The invoice a table starts with: the given lines, no discount, no tax,
   * and amounts computed from the lines.
   */
  function OpeningInvoice(items: seq<LineItem>): (inv: Invoice)
    ensures Consistent(inv) && inv.items == items && inv.id.None?
    ensures inv.discountPercent == 0.0 && inv.taxPercent == 0.0
    ensures inv.total == inv.subtotal == Subtotal(items)
  {
    var subtotal := Subtotal(items);
    Invoice(None, items, subtotal, 0.0, 0.0, 0.0, 0.0, subtotal)
  }

  /** The opening invoice is `recalcInvoice` applied to a fresh invoice holding the lines. */
  lemma OpeningInvoiceIsRecalc(items: seq<LineItem>)
    ensures OpeningInvoice(items) == Recalc(EmptyInvoice().(items := items))
  {
    var r := Recalc(EmptyInvoice().(items := items));
    assert r.discountAmount == 0.0 && r.taxAmount == 0.0;
  }

  /** The checkout body: one request line per invoice line, in order, and a null name for an empty one. */
  function BuildRequest(tableId: int, customerName: string, inv: Invoice): (req: CheckoutRequest)
    ensures req.tableId == tableId
    ensures req.customerName.None? <==> customerName == ""
    ensures req.customerName.Some? ==> req.customerName.value == customerName
    ensures |req.items| == |inv.items|
    ensures forall i :: 0 <= i < |inv.items| ==>
      var x, y := inv.items[i], req.items[i];
      y.productId == x.productId && y.productName == x.productName && y.quantity == x.quantity && y.price == x.price
    ensures req.discountPercent == inv.discountPercent && req.taxPercent == inv.taxPercent
  {
    CheckoutRequest(
      tableId,
      if customerName == "" then None else Some(customerName),
      seq(|inv.items|, i requires 0 <= i < |inv.items| =>
        RequestItem(inv.items[i].productId, inv.items[i].productName, inv.items[i].quantity, inv.items[i].price)),
      inv.discountPercent,
      inv.taxPercent)
  }

  /** The cashier screen. */
  class Cashier {
    const store: DraftStore
    var selectedTable: Option<Table>
    var invoice: Invoice
    var customerName: string
    var products: seq<Product>
    var categories: seq<string>
    var selectedCategory: string
    var currentPage: int
    var selectedProduct: Option<Product>
    var productQty: int

    /** What every handler keeps: the invoice's derived amounts agree with its lines, and the page is a real page. */
    ghost predicate Valid()
      reads this
    {
      Consistent(invoice) && 1 <= currentPage
    }

    constructor (store: DraftStore)
      ensures Valid() && this.store == store
      ensures selectedTable.None? && invoice == EmptyInvoice() && customerName == ""
      ensures products == [] && categories == [ALL] && selectedCategory == ALL && currentPage == 1
      ensures selectedProduct.None? && productQty == 1
    {
      assert Subtotal([]) == 0.0;
      this.store := store;
      selectedTable := None;
      invoice := EmptyInvoice();
      customerName := "";
      products := [];
      categories := [ALL];
      selectedCategory := ALL;
      currentPage := 1;
      selectedProduct := None;
      productQty := 1;
    }

    /** The products of the selected category. */
    function FilteredProducts(): seq<Product>
      reads this
    {
      FilterByCategory(products, selectedCategory)
    }

    /** The product grid's page, clamped to the last page. */
    function ShownProducts(): (page: seq<Product>)
      reads this
      requires Valid()
      ensures |page| <= CASHIER_PAGE_SIZE
      ensures FilteredProducts() != [] ==> page != []
    {
      VisiblePageNonEmptyWhenAny(FilteredProducts(), currentPage);
      VisiblePage(FilteredProducts(), currentPage, CASHIER_PAGE_SIZE)
    }

    /** The effect on `filteredProducts.length`: the page is lowered to the last page when it is past it. */
    method ClampPage()
      requires Valid()
      modifies this
      ensures Valid()
      ensures currentPage == if old(currentPage) <= TotalPages(|FilteredProducts()|, CASHIER_PAGE_SIZE) then old(currentPage)
                             else TotalPages(|FilteredProducts()|, CASHIER_PAGE_SIZE)
      ensures currentPage <= TotalPages(|FilteredProducts()|, CASHIER_PAGE_SIZE)
      ensures unchanged(this`selectedTable, this`invoice, this`customerName, this`products, this`categories)
      ensures unchanged(this`selectedCategory, this`selectedProduct, this`productQty)
    {
      var maxPage := TotalPages(|FilteredProducts()|, CASHIER_PAGE_SIZE);
      if maxPage < currentPage {
        currentPage := maxPage;
      }
    }

    /** The end of `loadProducts`: the product list and its category list are replaced, then the page is clamped. */
    method ProductsLoaded(ps: seq<Product>)
      requires Valid()
      modifies this
      ensures Valid()
      ensures products == ps && categories == Categories(ps)
      ensures currentPage == if old(currentPage) <= TotalPages(|FilteredProducts()|, CASHIER_PAGE_SIZE) then old(currentPage)
                             else TotalPages(|FilteredProducts()|, CASHIER_PAGE_SIZE)
      ensures currentPage <= TotalPages(|FilteredProducts()|, CASHIER_PAGE_SIZE)
      ensures unchanged(this`selectedTable, this`invoice, this`customerName, this`selectedCategory)
      ensures unchanged(this`selectedProduct, this`productQty)
    {
      products := ps;
      categories := CollectCategories(ps);
      ClampPage();
    }

    /**
     * A category button sets the category; the reset to the first page is an
     * effect on a change of category, so choosing the current category again
     * keeps the page.
     */
    method SelectCategory(c: string)
      requires Valid()
      modifies this
      ensures Valid()
      ensures selectedCategory == c
      ensures currentPage == if c == old(selectedCategory) then old(currentPage) else 1
      ensures unchanged(this`selectedTable, this`invoice, this`customerName, this`products, this`categories)
      ensures unchanged(this`selectedProduct, this`productQty)
    {
      if c != selectedCategory {
        selectedCategory := c;
        currentPage := 1;
        ClampPage();
      }
    }

    /** The pagination control picks a page among 1..totalPages. */
    method ChangePage(page: int)
      requires Valid() && 1 <= page <= TotalPages(|FilteredProducts()|, CASHIER_PAGE_SIZE)
      modifies this`currentPage
      ensures Valid() && currentPage == page
    {
      currentPage := page;
    }

    /**
     * `handleSelectTable`: the table becomes selected, the customer's name is
     * cleared and the invoice starts over with no discount and no tax. When
     * the detail request succeeds, it holds the fee line of a closed session
     * (if any) and its amounts are recalculated; when it fails, it is empty.
     */
    method SelectTable(table: Table, detail: TableDetail, now: int)
      requires Valid()
      modifies this`selectedTable, this`invoice, this`customerName
      ensures Valid()
      ensures selectedTable == Some(table) && customerName == ""
      ensures invoice.id.None? && invoice.discountPercent == 0.0 && invoice.taxPercent == 0.0
      ensures detail.DetailFailed? ==> invoice == EmptyInvoice()
      ensures detail.Detail? ==> invoice.items == InitialItems(table, detail.currentSession, now)
    {
      selectedTable := Some(table);
      customerName := "";
      if detail.DetailFailed? {
        invoice := EmptyInvoice();
        return;
      }
      var items := InitialItems(table, detail.currentSession, now);
      // Recalculating an invoice without lines gives back the empty invoice.
      if items == [] {
        invoice := EmptyInvoice();
      } else {
        invoice := OpeningInvoice(items);
      }
    }

    /** `handleAddProductClick`: opens the quantity dialog for the product, with quantity 1. */
    method ChooseProduct(p: Product)
      modifies this`selectedProduct, this`productQty
      ensures selectedProduct == Some(p) && productQty == 1
    {
      selectedProduct := Some(p);
      productQty := 1;
    }

    /** The quantity field: `parseInt(value) || 1`, so a non-number or 0 becomes 1 (a negative number stays). */
    method ChangeQuantity(parsed: Option<int>)
      modifies this`productQty
      ensures productQty == if parsed.None? || parsed.value == 0 then 1 else parsed.value
    {
      productQty := if parsed.None? || parsed.value == 0 then 1 else parsed.value;
    }

    /** `handleAddToInvoice` at time `now`. */
    method AddToInvoice(now: int)
      requires Valid()
      modifies this`invoice
      ensures Valid()
      ensures invoice == AddItem(old(invoice), selectedProduct, productQty, now)
    {
      invoice := AddItem(invoice, selectedProduct, productQty, now);
    }

    /** `handleRemoveItem`. */
    method RemoveLine(id: ItemId)
      requires Valid()
      modifies this`invoice
      ensures Valid()
      ensures invoice == RemoveItem(old(invoice), id)
    {
      invoice := RemoveItem(invoice, id);
    }

    /** The discount field: `parseFloat(value) || 0`, then recalculation. */
    method ChangeDiscount(parsed: Numeric)
      requires Valid()
      modifies this`invoice
      ensures Valid()
      ensures invoice == Recalc(old(invoice).(discountPercent := OrZero(parsed)))
    {
      invoice := Recalc(invoice.(discountPercent := OrZero(parsed)));
    }

    /** The tax field: `parseFloat(value) || 0`, then recalculation. */
    method ChangeTax(parsed: Numeric)
      requires Valid()
      modifies this`invoice
      ensures Valid()
      ensures invoice == Recalc(old(invoice).(taxPercent := OrZero(parsed)))
    {
      invoice := Recalc(invoice.(taxPercent := OrZero(parsed)));
    }

    method ChangeCustomerName(name: string)
      modifies this`customerName
      ensures customerName == name
    {
      customerName := name;
    }

    /**
     * `persistInvoiceState(next, name = customerName, tableIdOverride)`: the
     * draft is stored for the override table, or else the selected one,
     * under the "meaningful data" rule. `name` is `None` when the argument
     * is left out.
     */
    method PersistInvoiceState(next: Invoice, name: Option<string>, tableIdOverride: Option<int>)
      modifies store
      ensures store.writable == old(store.writable)
      ensures var tableId := if tableIdOverride.Some? then tableIdOverride
                             else if selectedTable.Some? then Some(selectedTable.value.id) else None;
              var nameToPersist := if name.Some? then name.value else customerName;
              store.Drafts() == if store.writable then DraftsAfterPersist(old(store.Drafts()), tableId, next, nameToPersist)
                                else old(store.Drafts())
    {
      var tableId := if tableIdOverride.Some? then tableIdOverride
                     else if selectedTable.Some? then Some(selectedTable.value.id) else None;
      if !IsTableKey(tableId) {
        return;
      }
      var toPersist := next.(id := None);
      var nameToPersist := if name.Some? then name.value else customerName;
      if !HasMeaningfulData(toPersist, nameToPersist) {
        store.ClearFor(tableId);
        return;
      }
      store.PersistFor(tableId, Draft(toPersist, nameToPersist));
    }

    /**
     * `handleCheckout`: refused without a table or without lines; a failed
     * request changes nothing; a successful one clears the table's draft and
     * resets the screen to an empty invoice carrying the new id.
     */
    method Checkout(reply: PostReply) returns (request: Option<CheckoutRequest>, outcome: CheckoutOutcome)
      requires Valid()
      modifies this, store
      ensures Valid()
      ensures store.writable == old(store.writable)
      ensures old(selectedTable).None? ==> outcome == NeedTable && request.None?
      ensures old(selectedTable).Some? && old(invoice).items == [] ==> outcome == NeedItems && request.None?
      ensures old(selectedTable).Some? && old(invoice).items != [] ==>
        request == Some(BuildRequest(old(selectedTable).value.id, old(customerName), old(invoice)))
      ensures old(selectedTable).Some? && old(invoice).items != [] ==>
        outcome == if reply.Created? then CheckedOut(reply.invoiceId) else CheckoutFailed
      ensures !outcome.CheckedOut? ==>
        && selectedTable == old(selectedTable) && invoice == old(invoice) && customerName == old(customerName)
        && store.Drafts() == old(store.Drafts())
      ensures outcome.CheckedOut? ==>
        && reply == Created(outcome.invoiceId)
        && invoice == EmptyInvoice().(id := outcome.invoiceId)
        && selectedTable.None? && customerName == ""
        && var tableId := old(selectedTable).value.id;
           store.Drafts() == if IsTableKey(Some(tableId)) && store.writable then old(store.Drafts()) - {tableId} else old(store.Drafts())
      ensures unchanged(this`products, this`categories, this`selectedCategory, this`currentPage)
      ensures unchanged(this`selectedProduct, this`productQty)
    {
      if selectedTable.None? {
        return None, NeedTable;
      }
      if invoice.items == [] {
        return None, NeedItems;
      }
      var tableId := selectedTable.value.id;
      request := Some(BuildRequest(tableId, customerName, invoice));
      if reply.PostFailed? {
        return request, CheckoutFailed;
      }
      store.ClearFor(Some(tableId));
      invoice := EmptyInvoice().(id := reply.invoiceId);
      selectedTable := None;
      customerName := "";
      outcome := CheckedOut(reply.invoiceId);
    }
  }

  /** The clamped page holds something whenever the category does. */
  lemma VisiblePageNonEmptyWhenAny(ps: seq<Product>, currentPage: int)
    requires currentPage >= 1
    ensures |VisiblePage(ps, currentPage, CASHIER_PAGE_SIZE)| <= CASHIER_PAGE_SIZE
    ensures ps != [] ==> VisiblePage(ps, currentPage, CASHIER_PAGE_SIZE) != []
  {
    if ps != [] {
      VisiblePageNonEmpty(ps, currentPage, CASHIER_PAGE_SIZE);
    }
  }
}
