/**
 * The orders ("Sales") list. It loads the first `currentLimit` orders, either
 * filtered by the screen's `email` prop or by what the user typed (an order id
 * when it looks numeric, an email otherwise), and "Load More" asks for ten more.
 * Unlike the customer and product lists it keeps its list when a request fails,
 * reports each load to its parent through `onOrdersLoaded`, and tests for the
 * end of the data against the window of the render that started the load.
 */
module RecentOrders {
  import opened Paging
  import opened Dedup
  import opened JsString

  /** An order, identified by its `ID`. */
  datatype Order = Order(id: int, email: string)

  function OrderKey(o: Order): int {
    o.id
  }

  /** The filter the request carries: exactly one of `email` and `id`. */
  datatype OrdersFilter = ByEmail(email: string) | ById(id: string)

  datatype OrdersQuery = OrdersQuery(number: nat, filter: OrdersFilter)

  /** The query of one load. `email` is the screen's prop, "" when the parent
      gave none (JavaScript treats both as false). `isNaN` stands for
      JavaScript's global `isNaN`, which is left abstract. */
  function QueryFor(email: string, input: string, isNaN: string -> bool, limit: nat): (q: OrdersQuery)
    ensures q.number == limit
    ensures q.filter.ById? <==> email == "" && !isNaN(input) && Trim(input) != []
    ensures q.filter.ById? ==> q.filter.id == input
    ensures q.filter.ByEmail? ==> q.filter.email == (if email != "" then email else input)
  {
    if email != "" then OrdersQuery(limit, ByEmail(email))
    else if !isNaN(input) && Trim(input) != "" then OrdersQuery(limit, ById(input))
    else OrdersQuery(limit, ByEmail(input))
  }

  /** With an `email` prop the search input plays no part in the request. */
  lemma EmailPropWins(email: string, a: string, b: string, isNaN: string -> bool, limit: nat)
    requires email != ""
    ensures QueryFor(email, a, isNaN, limit) == QueryFor(email, b, isNaN, limit) == OrdersQuery(limit, ByEmail(email))
  {
  }

  /** An empty or blank search is sent as an email filter, whatever `isNaN`
      says of it (JavaScript's `isNaN("")` is false). */
  lemma BlankInputIsEmail(input: string, isNaN: string -> bool, limit: nat)
    requires forall k :: 0 <= k < |input| ==> IsWhiteSpace(input[k])
    ensures QueryFor("", input, isNaN, limit) == OrdersQuery(limit, ByEmail(input))
  {
  }

  class RecentOrdersScreen {
    /** The `email` prop ("" when absent). */
    const email: string
    /** Whether the parent passed an `onOrdersLoaded` callback. */
    const notifies: bool

    var orders: seq<Order>
    var loading: bool
    var loadingMore: bool
    var hasMoreOrders: bool
    var currentLimit: nat
    var searchInput: string

    /** The window is a positive multiple of the step. */
    ghost predicate Valid()
      reads this
    {
      IsWindow(currentLimit)
    }

    /** The state the screen mounts with, before its first load. */
    constructor (email: string, notifies: bool)
      ensures Valid()
      ensures this.email == email && this.notifies == notifies
      ensures orders == [] && loading && !loadingMore && hasMoreOrders
      ensures currentLimit == Step && searchInput == ""
    {
      this.email := email;
      this.notifies := notifies;
      orders := [];
      loading := true;
      loadingMore := false;
      hasMoreOrders := true;
      currentLimit := Step;
      searchInput := "";
    }

    /** `loadOrders(input, isLoadMore, limit)`, run to completion as one step.
        `notice` is what `onOrdersLoaded` receives (None when there is no
        callback). The end-of-data test uses `currentLimit`, the window of
        the render that created this closure, not `limit`. */
    method LoadOrders(input: string, isLoadMore: bool, limit: nat, isNaN: string -> bool,
                      server: Server<OrdersFilter, Order>) returns (notice: Option<bool>)
      modifies this`orders, this`hasMoreOrders, this`loading, this`loadingMore
      ensures !loading && !loadingMore
      ensures var q := QueryFor(email, input, isNaN, limit);
        match Answer(server, 0, q.filter, q.number)
        case Failed =>
          && orders == old(orders) && hasMoreOrders == old(hasMoreOrders)
          && notice == (if notifies then Some(false) else None)
        case Answered(list) =>
          && orders == (if isLoadMore then UniqueByKey(old(orders) + Records(list), OrderKey) else Records(list))
          && hasMoreOrders == HasMore(|Records(list)|, currentLimit)
          && notice == (if notifies then Some(|Records(list)| > 0) else None)
    {
      if !isLoadMore {
        loading := true;
      } else {
        loadingMore := true;
      }
      var q := QueryFor(email, input, isNaN, limit);
      var reply := Answer(server, 0, q.filter, q.number);
      match reply {
        case Failed =>
          notice := if notifies then Some(false) else None;
        case Answered(list) =>
          var sales := Records(list);
          if isLoadMore {
            orders := UniqueByKey(orders + sales, OrderKey);
          } else {
            orders := sales;
          }
          if |sales| < currentLimit {
            hasMoreOrders := false;
          } else {
            hasMoreOrders := true;
          }
          notice := if notifies then Some(|sales| > 0) else None;
      }
      loading := false;
      loadingMore := false;
    }

    /** `handleLoadMore`: asks for ten more orders and stores the grown window.
        The load still compares the reply with the window from before the
        increment, since the closure was created before the state update. */
    method HandleLoadMore(isNaN: string -> bool, server: Server<OrdersFilter, Order>) returns (notice: Option<bool>)
      requires Valid()
      modifies this`orders, this`hasMoreOrders, this`loading, this`loadingMore, this`currentLimit
      ensures Valid() && currentLimit == old(currentLimit) + Step
      ensures !loading && !loadingMore
      ensures DistinctKeys(old(orders), OrderKey) ==> old(orders) <= orders && DistinctKeys(orders, OrderKey)
      ensures var q := QueryFor(email, searchInput, isNaN, old(currentLimit) + Step);
        match Answer(server, 0, q.filter, q.number)
        case Failed =>
          && orders == old(orders) && hasMoreOrders == old(hasMoreOrders)
          && notice == (if notifies then Some(false) else None)
        case Answered(list) =>
          && orders == UniqueByKey(old(orders) + Records(list), OrderKey)
          && hasMoreOrders == HasMore(|Records(list)|, old(currentLimit))
          && notice == (if notifies then Some(|Records(list)| > 0) else None)
    {
      var newLimit := currentLimit + Step;
      GrowWindow(currentLimit);
      ghost var q := QueryFor(email, searchInput, isNaN, newLimit);
      ghost var reply := Answer(server, 0, q.filter, q.number);
      notice := LoadOrders(searchInput, true, newLimit, isNaN, server);
      currentLimit := newLimit;
      match reply {
        case Failed =>
          assert orders == old(orders);
        case Answered(list) =>
          assert orders == UniqueByKey(old(orders) + Records(list), OrderKey);
          assert DistinctKeys(old(orders), OrderKey) ==> old(orders) <= orders by {
            if DistinctKeys(old(orders), OrderKey) {
              MergeExtends(old(orders), Records(list), OrderKey);
            }
          }
      }
    }

    /** Submitting the search field: a fresh load of the typed text with the
        current, possibly grown, window. */
    method SubmitSearch(text: string, isNaN: string -> bool, server: Server<OrdersFilter, Order>) returns (notice: Option<bool>)
      requires Valid()
      modifies this`orders, this`hasMoreOrders, this`loading, this`loadingMore, this`searchInput
      ensures Valid() && currentLimit == old(currentLimit) && searchInput == text
      ensures !loading && !loadingMore
      ensures var q := QueryFor(email, text, isNaN, currentLimit);
        match Answer(server, 0, q.filter, q.number)
        case Failed =>
          && orders == old(orders) && hasMoreOrders == old(hasMoreOrders)
          && notice == (if notifies then Some(false) else None)
        case Answered(list) =>
          && orders == Records(list) && hasMoreOrders == HasMore(|Records(list)|, currentLimit)
          && notice == (if notifies then Some(|Records(list)| > 0) else None)
    {
      searchInput := text;
      notice := LoadOrders(text, false, currentLimit, isNaN, server);
    }
  }

  /** The stale window in the end-of-data test: when the collection holds at
      least the old window but fewer than the new one, the load-more reply
      already holds every order, yet the test against the old window still
      reports more (the test against the requested window would not). */
  lemma StaleLimitMissesEnd(xs: seq<Order>, limit: nat)
    requires limit <= |xs| < limit + Step
    ensures FirstN(xs, limit + Step) == xs
    ensures HasMore(|FirstN(xs, limit + Step)|, limit)
    ensures !HasMore(|FirstN(xs, limit + Step)|, limit + Step)
  {
  }
}
