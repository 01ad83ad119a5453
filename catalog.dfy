/** The product listing as the billing provider pages it, the scan that
    finds the product offering a price before a checkout is created, and
    the flattening of the listing into the plans shown to users. */
module Catalog {
  import opened Values

  /** A price as the provider lists it inside a product. */
  datatype ProductPrice = ProductPrice(id: string, priceAmount: int, priceCurrency: string, recurringInterval: Option<string>)

  /** A product as the provider lists it; `prices` may be missing. */
  datatype Product = Product(id: string, name: string, description: Option<string>, isRecurring: bool, prices: Option<seq<ProductPrice>>)

  /** One page of the listing: its `result.items`, or None when the page
      carries no items. */
  type Page = Option<seq<Product>>

  /** A price in the cleaned plan list. */
  datatype Price = Price(id: string, amount: int, currency: string, interval: string)

  /** A product in the cleaned plan list. */
  datatype CleanedItem = CleanedItem(id: string, name: string, description: string, isRecurring: bool, prices: seq<Price>)

  datatype Pagination = Pagination(totalItems: nat, page: nat, pageSize: nat)

  datatype AvailablePlans = AvailablePlans(items: seq<CleanedItem>, pagination: Pagination)

  /** `productData.prices?.some(price => price.id === priceId)`. */
  predicate HasPrice(p: Product, priceId: string) {
    p.prices.Some? && exists q | q in p.prices.value :: q.id == priceId
  }

  function PriceTest(priceId: string): Product -> bool {
    (p: Product) => HasPrice(p, priceId)
  }

  /** The position of the first product of a page offering the price. */
  function FirstWithPrice(items: seq<Product>, priceId: string): (r: Option<nat>)
    ensures r.Some? ==> r.value < |items| && HasPrice(items[r.value], priceId)
    ensures r.Some? ==> forall j :: 0 <= j < r.value ==> !HasPrice(items[j], priceId)
    ensures r.None? <==> forall j :: 0 <= j < |items| ==> !HasPrice(items[j], priceId)
  {
    FirstIndex(items, PriceTest(priceId))
  }

  function ItemsOf(page: Page): seq<Product> {
    if page.Some? then page.value else []
  }

  /** Every product of the listing, in page-then-item order. */
  function Listed(pages: seq<Page>): seq<Product> {
    if |pages| == 0 then [] else Listed(pages[..|pages| - 1]) + ItemsOf(pages[|pages| - 1])
  }

  // ---------------------------------------------------------------------
  // The price search inside `createCheckout`

  /** `productId` after the inner loop has run over one page. */
  function Visit(productId: Option<string>, page: Page, priceId: string): Option<string> {
    match page
    case None => productId
    case Some(items) =>
      match FirstWithPrice(items, priceId)
      case None => productId
      case Some(k) => Some(items[k].id)
  }

  /** Some product on some page carries this id and offers the price. */
  ghost predicate Offered(pages: seq<Page>, priceId: string, id: string) {
    exists p, k :: 0 <= p < |pages| && pages[p].Some? && 0 <= k < |pages[p].value| &&
      pages[p].value[k].id == id && HasPrice(pages[p].value[k], priceId)
  }

  /** `productId` after the outer loop has run over `pages`, stopping at the
      first page after which it is truthy; whatever it holds is the id of a
      product offering the price. */
  function ScanState(pages: seq<Page>, priceId: string): (r: Option<string>)
    ensures r.Some? ==> Offered(pages, priceId, r.value)
  {
    if |pages| == 0 then None
    else
      var before := ScanState(pages[..|pages| - 1], priceId);
      if Truthy(before) then before else Visit(before, pages[|pages| - 1], priceId)
  }

  function NotFoundMessage(priceId: string): string {
    "Product not found for price ID: " + priceId
  }

  /** The outcome of the search: a truthy `productId`, or the error thrown. */
  function ProductIdForPrice(pages: seq<Page>, priceId: string): (r: Result<string, string>)
    ensures r.Ok? ==> r.value != "" && Offered(pages, priceId, r.value)
    ensures r.Err? ==> r.error == NotFoundMessage(priceId)
    ensures (forall id :: !Offered(pages, priceId, id)) ==> r.Err?
  {
    var found := ScanState(pages, priceId);
    if Truthy(found) then Ok(found.value) else Err(NotFoundMessage(priceId))
  }

  /** Once `productId` is truthy, later pages are not visited. */
  lemma {:induction false} ScanStopsWhenFound(pages: seq<Page>, n: nat, priceId: string)
    requires n <= |pages| && Truthy(ScanState(pages[..n], priceId))
    ensures ScanState(pages, priceId) == ScanState(pages[..n], priceId)
    decreases |pages| - n
  {
    if n < |pages| {
      assert pages[..n + 1][..n] == pages[..n];
      ScanStopsWhenFound(pages, n + 1, priceId);
    } else {
      assert pages[..n] == pages;
    }
  }

  /** The nested loops of `createCheckout` that look for the product offering
      `priceId`, page by page and item by item, stopping at the first hit. */
  method FindProductForPrice(pages: seq<Page>, priceId: string) returns (r: Result<string, string>)
    ensures r == ProductIdForPrice(pages, priceId)
  {
    var productId: Option<string> := None;
    var p := 0;
    while p < |pages|
      invariant 0 <= p <= |pages|
      invariant productId == ScanState(pages[..p], priceId)
      invariant !Truthy(productId)
    {
      assert pages[..p + 1][..p] == pages[..p];
      if pages[p].Some? {
        var items := pages[p].value;
        var k := 0;
        while k < |items|
          invariant 0 <= k <= |items|
          invariant forall j :: 0 <= j < k ==> !HasPrice(items[j], priceId)
          invariant productId == ScanState(pages[..p], priceId)
        {
          if HasPrice(items[k], priceId) {
            assert FirstWithPrice(items, priceId) == Some(k);
            productId := Some(items[k].id);
            break;
          }
          k := k + 1;
        }
      }
      assert productId == ScanState(pages[..p + 1], priceId);
      if Truthy(productId) {
        ScanStopsWhenFound(pages, p + 1, priceId);
        break;
      }
      p := p + 1;
    }
    if p == |pages| {
      assert pages[..p] == pages;
    }
    if !Truthy(productId) {
      r := Err(NotFoundMessage(priceId));
    } else {
      r := Ok(productId.value);
    }
  }

  /** Whatever the listing, a product id the search holds belongs to a
      listed product that offers the price. */
  lemma {:induction false} FoundProductOffersPrice(pages: seq<Page>, priceId: string)
    ensures ScanState(pages, priceId).Some? ==>
      exists k :: 0 <= k < |Listed(pages)| && Listed(pages)[k].id == ScanState(pages, priceId).value &&
        HasPrice(Listed(pages)[k], priceId)
  {
    if |pages| > 0 {
      var init := pages[..|pages| - 1];
      var before := ScanState(init, priceId);
      FoundProductOffersPrice(init, priceId);
      var listed := Listed(pages);
      if before.Some? {
        var k :| 0 <= k < |Listed(init)| && Listed(init)[k].id == before.value && HasPrice(Listed(init)[k], priceId);
        assert listed[k] == Listed(init)[k];
      }
      var last := pages[|pages| - 1];
      if !Truthy(before) && last.Some? {
        match FirstWithPrice(last.value, priceId)
        case None =>
        case Some(j) =>
          assert listed[|Listed(init)| + j] == last.value[j];
      }
    }
  }

  /** When every listed product has a non-empty id, the search returns the
      first product, in page-then-item order, that offers the price, and
      fails exactly when no product does. */
  lemma {:induction false} ScanFindsFirstListed(pages: seq<Page>, priceId: string)
    requires forall k :: 0 <= k < |Listed(pages)| ==> Listed(pages)[k].id != ""
    ensures ScanState(pages, priceId) ==
      match FirstWithPrice(Listed(pages), priceId)
      case None => None
      case Some(k) => Some(Listed(pages)[k].id)
  {
    if |pages| > 0 {
      var init := pages[..|pages| - 1];
      var front := Listed(init);
      var back := ItemsOf(pages[|pages| - 1]);
      assert Listed(pages) == front + back;
      forall k | 0 <= k < |front| ensures front[k].id != "" {
        assert front[k] == Listed(pages)[k];
      }
      ScanFindsFirstListed(init, priceId);
      FirstIndexAppend(front, back, PriceTest(priceId));
      assert FirstWithPrice(front + back, priceId) == FirstIndex(front + back, PriceTest(priceId));
      match FirstWithPrice(front, priceId)
      case Some(k) =>
        assert front[k].id != "";
        assert Listed(pages)[k] == front[k];
      case None =>
        assert ScanState(init, priceId) == None;
        match FirstWithPrice(back, priceId)
        case None =>
        case Some(j) =>
          assert Listed(pages)[|front| + j] == back[j];
    }
  }

  /** The search's outcome, read off the listing: the first product offering
      the price, or "Product not found" when none does. */
  lemma ProductIdForPriceIsFirstListed(pages: seq<Page>, priceId: string)
    requires forall k :: 0 <= k < |Listed(pages)| ==> Listed(pages)[k].id != ""
    ensures ProductIdForPrice(pages, priceId) ==
      match FirstWithPrice(Listed(pages), priceId)
      case None => Err(NotFoundMessage(priceId))
      case Some(k) => Ok(Listed(pages)[k].id)
  {
    ScanFindsFirstListed(pages, priceId);
  }

  // ---------------------------------------------------------------------
  // The plan list of `getAvailablePlansAction`

  /** `interval: price.recurringInterval || "one_time"`; the rest verbatim. */
  function CleanPrice(q: ProductPrice): (c: Price)
    ensures c.id == q.id && c.amount == q.priceAmount && c.currency == q.priceCurrency
    ensures c.interval == if Truthy(q.recurringInterval) then q.recurringInterval.value else "one_time"
  {
    Price(q.id, q.priceAmount, q.priceCurrency, OrElse(q.recurringInterval, "one_time"))
  }

  /** `description || ""` and `prices?.map(...) || []`; the rest verbatim. */
  function CleanItem(p: Product): (c: CleanedItem)
    ensures c.id == p.id && c.name == p.name && c.isRecurring == p.isRecurring
    ensures c.description == if Truthy(p.description) then p.description.value else ""
    ensures p.prices.None? ==> c.prices == []
    ensures p.prices.Some? ==> |c.prices| == |p.prices.value|
    ensures p.prices.Some? ==> forall i :: 0 <= i < |c.prices| ==> c.prices[i] == CleanPrice(p.prices.value[i])
  {
    CleanedItem(p.id, p.name, OrElse(p.description, ""), p.isRecurring,
      match p.prices
      case None => []
      case Some(ps) => seq(|ps|, i requires 0 <= i < |ps| => CleanPrice(ps[i])))
  }

  /** The cleaned list for a run of products, in their order. */
  function CleanAll(ps: seq<Product>): (cs: seq<CleanedItem>)
    ensures |cs| == |ps|
    ensures forall k :: 0 <= k < |ps| ==> cs[k] == CleanItem(ps[k])
  {
    if |ps| == 0 then [] else CleanAll(ps[..|ps| - 1]) + [CleanItem(ps[|ps| - 1])]
  }

  /** Pushing one more product pushes its cleaned item. */
  lemma CleanAllPush(ps: seq<Product>, p: Product)
    ensures CleanAll(ps + [p]) == CleanAll(ps) + [CleanItem(p)]
  {
    assert (ps + [p])[..|ps|] == ps;
  }

  /** Taking one more product of the page extends the listed prefix by it. */
  lemma PrefixGrows(done: seq<Product>, page: seq<Product>, k: nat)
    requires k < |page|
    ensures done + page[..k + 1] == (done + page[..k]) + [page[k]]
  {
    assert page[..k + 1] == page[..k] + [page[k]];
  }

  /** `getAvailablePlansAction` once the listing is fetched: one cleaned item
      pushed per listed product, and a single page holding all of them. */
  method GetAvailablePlans(pages: seq<Page>) returns (r: AvailablePlans)
    ensures r.items == CleanAll(Listed(pages))
    ensures r.pagination.totalItems == |r.items| == |Listed(pages)|
    ensures r.pagination.page == 1 && r.pagination.pageSize == |r.items|
  {
    var items: seq<CleanedItem> := [];
    var p := 0;
    while p < |pages|
      invariant 0 <= p <= |pages|
      invariant items == CleanAll(Listed(pages[..p]))
    {
      ghost var done := Listed(pages[..p]);
      assert pages[..p + 1][..p] == pages[..p];
      assert Listed(pages[..p + 1]) == done + ItemsOf(pages[p]);
      if pages[p].Some? {
        var page := pages[p].value;
        var k := 0;
        while k < |page|
          invariant 0 <= k <= |page|
          invariant items == CleanAll(done + page[..k])
        {
          PrefixGrows(done, page, k);
          CleanAllPush(done + page[..k], page[k]);
          items := items + [CleanItem(page[k])];
          k := k + 1;
        }
        assert page[..k] == page;
      } else {
        assert done + ItemsOf(pages[p]) == done;
      }
      p := p + 1;
    }
    assert pages[..p] == pages;
    r := AvailablePlans(items, Pagination(|items|, 1, |items|));
  }

  /** A cleaned item lists a price with this id. */
  predicate OffersPrice(c: CleanedItem, priceId: string) {
    exists q | q in c.prices :: q.id == priceId
  }

  /** Cleaning keeps every price id, so a product offers a price exactly when
      its cleaned item does. */
  lemma CleaningKeepsPriceIds(p: Product, priceId: string)
    ensures HasPrice(p, priceId) <==> OffersPrice(CleanItem(p), priceId)
  {
    var c := CleanItem(p);
    if HasPrice(p, priceId) {
      var q :| q in p.prices.value && q.id == priceId;
      var i :| 0 <= i < |p.prices.value| && p.prices.value[i] == q;
      assert c.prices[i].id == priceId;
    }
    if OffersPrice(c, priceId) {
      var q :| q in c.prices && q.id == priceId;
      var i :| 0 <= i < |c.prices| && c.prices[i] == q;
      assert p.prices.value[i].id == priceId;
    }
  }

  /** `OffersPrice` as a function value, so that every search for a plan
      offering the price names the same test. */
  function OfferTest(priceId: string): CleanedItem -> bool {
    (c: CleanedItem) => OffersPrice(c, priceId)
  }

  /** Cleaning a run of products does not move the first one offering a
      price: the first plan listing the price id sits where the first
      product offering it sat. */
  lemma FirstOfferSurvivesCleaning(ps: seq<Product>, priceId: string)
    ensures FirstIndex(CleanAll(ps), OfferTest(priceId)) == FirstWithPrice(ps, priceId)
  {
    var plans := CleanAll(ps);
    forall k | 0 <= k < |ps| ensures OfferTest(priceId)(plans[k]) == PriceTest(priceId)(ps[k]) {
      CleaningKeepsPriceIds(ps[k], priceId);
    }
    FirstIndexAgrees(plans, OfferTest(priceId), ps, PriceTest(priceId));
  }

  /** An outcome read off the first plan offering the price names that plan,
      and is the error exactly when no plan offers the price. */
  lemma FirstPlanDecides(plans: seq<CleanedItem>, priceId: string, outcome: Result<string, string>)
    requires outcome == match FirstIndex(plans, OfferTest(priceId))
                        case None => Err(NotFoundMessage(priceId))
                        case Some(k) => Ok(plans[k].id)
    ensures forall k :: 0 <= k < |plans| && OffersPrice(plans[k], priceId) &&
                        (forall j :: 0 <= j < k ==> !OffersPrice(plans[j], priceId)) ==>
              outcome == Ok(plans[k].id)
    ensures (forall k :: 0 <= k < |plans| ==> !OffersPrice(plans[k], priceId)) <==>
              outcome == Err(NotFoundMessage(priceId))
  {
    var f := OfferTest(priceId);
    forall k | 0 <= k < |plans| ensures f(plans[k]) == OffersPrice(plans[k], priceId) { }
    forall k | 0 <= k < |plans| && OffersPrice(plans[k], priceId) &&
               (forall j :: 0 <= j < k ==> !OffersPrice(plans[j], priceId))
      ensures outcome == Ok(plans[k].id)
    {
      FirstIndexAt(plans, f, k);
    }
  }

  /** The checkout search and the plan list agree: with non-empty product
      ids, checking out a price selects the first plan listed with that price,
      and fails exactly when no listed plan offers it. */
  lemma CheckoutSelectsFirstListedPlan(pages: seq<Page>, priceId: string)
    requires forall k :: 0 <= k < |Listed(pages)| ==> Listed(pages)[k].id != ""
    ensures var plans := CleanAll(Listed(pages));
      forall k :: 0 <= k < |plans| && OffersPrice(plans[k], priceId) &&
                  (forall j :: 0 <= j < k ==> !OffersPrice(plans[j], priceId)) ==>
        ProductIdForPrice(pages, priceId) == Ok(plans[k].id)
    ensures var plans := CleanAll(Listed(pages));
      (forall k :: 0 <= k < |plans| ==> !OffersPrice(plans[k], priceId)) <==>
        ProductIdForPrice(pages, priceId) == Err(NotFoundMessage(priceId))
  {
    var listed := Listed(pages);
    var plans := CleanAll(listed);
    var outcome := ProductIdForPrice(pages, priceId);
    assert outcome == match FirstIndex(plans, OfferTest(priceId))
                      case None => Err(NotFoundMessage(priceId))
                      case Some(k) => Ok(plans[k].id) by {
      ProductIdForPriceIsFirstListed(pages, priceId);
      FirstOfferSurvivesCleaning(listed, priceId);
      match FirstWithPrice(listed, priceId)
      case None =>
      case Some(k) => assert plans[k].id == listed[k].id;
    }
    FirstPlanDecides(plans, priceId, outcome);
  }
}
