/**
 * The products list: loads the first `currentLimit` products and "Load More"
 * asks for ten more, merging by `info.id`. The search text is put under the
 * query key `customer`, which the products request never reads, so searching
 * does not change what is fetched. Each row also shows the product's earnings
 * and sales, looked up by its slug.
 */
module ProductsList {
  import opened Paging
  import opened Dedup

  datatype ProductInfo = ProductInfo(id: int, slug: string, title: string)

  /** A product, identified by `info.id`. */
  datatype Product = Product(info: ProductInfo)

  function ProductKey(p: Product): int {
    p.info.id
  }

  /** The query object the screen builds: `number`, and `customer` for a
      non-empty search text. */
  datatype ProductsQuery = ProductsQuery(number: nat, customer: Option<string>)

  function QueryFor(input: string, limit: nat): (q: ProductsQuery)
    ensures q.number == limit
    ensures q.customer.Some? <==> input != ""
    ensures q.customer.Some? ==> q.customer.value == input
  {
    ProductsQuery(limit, if input != "" then Some(input) else None)
  }

  /** The filter the products endpoint receives: its `s` and `product`
      parameters. */
  datatype ProductsFilter = ProductsFilter(search: Option<string>, productId: Option<string>)

  /** What the products request reads from the query object: it takes the
      keys `search`, `number` and `productId`, and the screen's object has
      neither `search` nor `productId`. */
  function SentFilter(q: ProductsQuery): (f: ProductsFilter)
    ensures f.search.None? && f.productId.None?
  {
    ProductsFilter(None, None)
  }

  /** Searching has no effect on what the server sends back: any two search
      texts get the same reply for the same window. */
  lemma SearchIsIgnored(a: string, b: string, limit: nat, server: Server<ProductsFilter, Product>)
    ensures var qa, qb := QueryFor(a, limit), QueryFor(b, limit);
      Answer(server, 0, SentFilter(qa), qa.number) == Answer(server, 0, SentFilter(qb), qb.number)
  {
  }

  class ProductsScreen {
    var orders: seq<Product>
    var loading: bool
    var loadingMore: bool
    var hasMoreOrders: bool
    var currentLimit: nat
    var searchInput: string

    /** The window is a positive multiple of the step. */
    ghost predicate Valid()
      reads this
    {
      IsWindow(currentLimit)
    }

    /** The state the screen mounts with, before its first load. */
    constructor ()
      ensures Valid()
      ensures orders == [] && loading && !loadingMore && hasMoreOrders
      ensures currentLimit == Step && searchInput == ""
    {
      orders := [];
      loading := true;
      loadingMore := false;
      hasMoreOrders := true;
      currentLimit := Step;
      searchInput := "";
    }

    /** `loadOrders(input, isLoadMore, limit)`, run to completion as one step. */
    method LoadOrders(input: string, isLoadMore: bool, limit: nat, server: Server<ProductsFilter, Product>)
      modifies this`orders, this`hasMoreOrders, this`loading, this`loadingMore
      ensures !loading && !loadingMore
      ensures var q := QueryFor(input, limit);
        match Answer(server, 0, SentFilter(q), q.number)
        case Failed => orders == [] && hasMoreOrders == old(hasMoreOrders)
        case Answered(list) =>
          && orders == (if isLoadMore then UniqueByKey(old(orders) + Records(list), ProductKey) else Records(list))
          && hasMoreOrders == HasMore(|Records(list)|, limit)
    {
      if !isLoadMore {
        loading := true;
      } else {
        loadingMore := true;
      }
      var q := QueryFor(input, limit);
      var reply := Answer(server, 0, SentFilter(q), q.number);
      match reply {
        case Failed =>
          orders := [];
        case Answered(list) =>
          var sales := Records(list);
          if isLoadMore {
            orders := UniqueByKey(orders + sales, ProductKey);
          } else {
            orders := sales;
          }
          if |sales| < limit {
            hasMoreOrders := false;
          } else {
            hasMoreOrders := true;
          }
      }
      loading := false;
      loadingMore := false;
    }

    /** `handleLoadMore`: asks for ten more products and stores the grown
        window. */
    method HandleLoadMore(server: Server<ProductsFilter, Product>)
      requires Valid()
      modifies this`orders, this`hasMoreOrders, this`loading, this`loadingMore, this`currentLimit
      ensures Valid() && currentLimit == old(currentLimit) + Step
      ensures !loading && !loadingMore
      ensures var q := QueryFor(searchInput, currentLimit);
        match Answer(server, 0, SentFilter(q), q.number)
        case Failed => orders == [] && hasMoreOrders == old(hasMoreOrders)
        case Answered(list) =>
          && orders == UniqueByKey(old(orders) + Records(list), ProductKey)
          && hasMoreOrders == HasMore(|Records(list)|, currentLimit)
          && (DistinctKeys(old(orders), ProductKey) ==> old(orders) <= orders)
    {
      var newLimit := currentLimit + Step;
      GrowWindow(currentLimit);
      ghost var q := QueryFor(searchInput, newLimit);
      ghost var reply := Answer(server, 0, SentFilter(q), q.number);
      LoadOrders(searchInput, true, newLimit, server);
      currentLimit := newLimit;
      assert reply.Answered? && DistinctKeys(old(orders), ProductKey) ==> old(orders) <= orders by {
        if reply.Answered? && DistinctKeys(old(orders), ProductKey) {
          MergeExtends(old(orders), Records(reply.list), ProductKey);
        }
      }
    }

    /** Submitting the search field: a fresh load with the current, possibly
        grown, window (the text itself reaches no request parameter). */
    method SubmitSearch(text: string, server: Server<ProductsFilter, Product>)
      requires Valid()
      modifies this`orders, this`hasMoreOrders, this`loading, this`loadingMore, this`searchInput
      ensures Valid() && currentLimit == old(currentLimit) && searchInput == text
      ensures !loading && !loadingMore
      ensures var q := QueryFor(text, currentLimit);
        match Answer(server, 0, SentFilter(q), q.number)
        case Failed => orders == [] && hasMoreOrders == old(hasMoreOrders)
        case Answered(list) => orders == Records(list) && hasMoreOrders == HasMore(|Records(list)|, currentLimit)
    {
      searchInput := text;
      LoadOrders(text, false, currentLimit, server);
    }
  }

  /** A value in the stats tables: a number, or a falsy non-number (null,
      empty string). */
  datatype StatEntry = Amount(value: int) | Blank

  /** The product stats response: per-slug tables `earning` and `sale`, either
      of which may be missing. */
  datatype StatsData = StatsData(earning: Option<map<string, StatEntry>>, sale: Option<map<string, StatEntry>>)

  datatype Stats = Stats(earnings: int, sales: int)

  /** `table?.[slug] || 0`. */
  function StatOrZero(table: Option<map<string, StatEntry>>, slug: string): (v: int)
    ensures v != 0 ==> table.Some? && slug in table.value && table.value[slug] == Amount(v)
    ensures table.None? || slug !in table.value || table.value[slug].Blank? ==> v == 0
    ensures table.Some? && slug in table.value && table.value[slug].Amount? ==> v == table.value[slug].value
  {
    if table.Some? && slug in table.value && table.value[slug].Amount? then table.value[slug].value else 0
  }

  /** The stats a product row shows. `reply` is None when the stats request
      failed, in which case the row keeps its initial zeros. */
  function RowStats(reply: Option<StatsData>, slug: string): (s: Stats)
    ensures reply.None? ==> s == Stats(0, 0)
    ensures reply.Some? ==> s.earnings == StatOrZero(reply.value.earning, slug)
    ensures reply.Some? ==> s.sales == StatOrZero(reply.value.sale, slug)
  {
    match reply
    case None => Stats(0, 0)
    case Some(data) => Stats(StatOrZero(data.earning, slug), StatOrZero(data.sale, slug))
  }

  /** Two stats tables agree at `slug`: neither has an entry for it, or both
      have the same entry. */
  predicate SameAt(a: Option<map<string, StatEntry>>, b: Option<map<string, StatEntry>>, slug: string) {
    && (a.Some? && slug in a.value <==> b.Some? && slug in b.value)
    && (a.Some? && slug in a.value ==> b.Some? && slug in b.value && a.value[slug] == b.value[slug])
  }

  /** Only the row's own slug matters: two stats replies that agree at the
      slug in both tables give the row the same stats, whatever they hold for
      other products. */
  lemma RowStatsOnlyOwnSlug(a: StatsData, b: StatsData, slug: string)
    requires SameAt(a.earning, b.earning, slug) && SameAt(a.sale, b.sale, slug)
    ensures RowStats(Some(a), slug) == RowStats(Some(b), slug)
  {
  }
}
