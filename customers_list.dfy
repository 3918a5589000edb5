/**
 * The customers list: loads the first `currentLimit` customers, optionally
 * filtered by the search text, and "Load More" asks for ten more and merges by
 * `info.customer_id`. A failed request empties the list.
 */
module CustomersList {
  import opened Paging
  import opened Dedup

  datatype CustomerInfo = CustomerInfo(customerId: int, email: string)

  /** A customer, identified by `info.customer_id`. */
  datatype Customer = Customer(info: CustomerInfo)

  function CustomerKey(c: Customer): int {
    c.info.customerId
  }

  /** The request's parameters: `number` always, `customer` only for a
      non-empty search text. */
  datatype CustomersQuery = CustomersQuery(number: nat, customer: Option<string>)

  function QueryFor(input: string, limit: nat): (q: CustomersQuery)
    ensures q.number == limit
    ensures q.customer.Some? <==> input != ""
    ensures q.customer.Some? ==> q.customer.value == input
  {
    CustomersQuery(limit, if input != "" then Some(input) else None)
  }

  class CustomersScreen {
    var orders: seq<Customer>
    var loading: bool
    var loadingMore: bool
    var hasMoreOrders: bool
    var currentLimit: nat
    var searchInput: string

    /** The window is a positive multiple of the step. */
    ghost predicate Valid()
      reads this
    {
      IsWindow(currentLimit)
    }

    /** The state the screen mounts with, before its first load. */
    constructor ()
      ensures Valid()
      ensures orders == [] && loading && !loadingMore && hasMoreOrders
      ensures currentLimit == Step && searchInput == ""
    {
      orders := [];
      loading := true;
      loadingMore := false;
      hasMoreOrders := true;
      currentLimit := Step;
      searchInput := "";
    }

    /** `loadOrders(input, isLoadMore, limit)`, run to completion as one step. */
    method LoadOrders(input: string, isLoadMore: bool, limit: nat, server: Server<Option<string>, Customer>)
      modifies this`orders, this`hasMoreOrders, this`loading, this`loadingMore
      ensures !loading && !loadingMore
      ensures var q := QueryFor(input, limit);
        match Answer(server, 0, q.customer, q.number)
        case Failed => orders == [] && hasMoreOrders == old(hasMoreOrders)
        case Answered(list) =>
          && orders == (if isLoadMore then UniqueByKey(old(orders) + Records(list), CustomerKey) else Records(list))
          && hasMoreOrders == HasMore(|Records(list)|, limit)
    {
      if !isLoadMore {
        loading := true;
      } else {
        loadingMore := true;
      }
      var q := QueryFor(input, limit);
      var reply := Answer(server, 0, q.customer, q.number);
      match reply {
        case Failed =>
          orders := [];
        case Answered(list) =>
          var sales := Records(list);
          if isLoadMore {
            orders := UniqueByKey(orders + sales, CustomerKey);
          } else {
            orders := sales;
          }
          if |sales| < limit {
            hasMoreOrders := false;
          } else {
            hasMoreOrders := true;
          }
      }
      loading := false;
      loadingMore := false;
    }

    /** `handleLoadMore`: asks for ten more customers and stores the grown
        window. */
    method HandleLoadMore(server: Server<Option<string>, Customer>)
      requires Valid()
      modifies this`orders, this`hasMoreOrders, this`loading, this`loadingMore, this`currentLimit
      ensures Valid() && currentLimit == old(currentLimit) + Step
      ensures !loading && !loadingMore
      ensures var q := QueryFor(searchInput, currentLimit);
        match Answer(server, 0, q.customer, q.number)
        case Failed => orders == [] && hasMoreOrders == old(hasMoreOrders)
        case Answered(list) =>
          && orders == UniqueByKey(old(orders) + Records(list), CustomerKey)
          && hasMoreOrders == HasMore(|Records(list)|, currentLimit)
          && (DistinctKeys(old(orders), CustomerKey) ==> old(orders) <= orders)
    {
      var newLimit := currentLimit + Step;
      GrowWindow(currentLimit);
      ghost var q := QueryFor(searchInput, newLimit);
      ghost var reply := Answer(server, 0, q.customer, q.number);
      LoadOrders(searchInput, true, newLimit, server);
      currentLimit := newLimit;
      assert reply.Answered? && DistinctKeys(old(orders), CustomerKey) ==> old(orders) <= orders by {
        if reply.Answered? && DistinctKeys(old(orders), CustomerKey) {
          MergeExtends(old(orders), Records(reply.list), CustomerKey);
        }
      }
    }

    /** Submitting the search field: a fresh load of the typed text with the
        current, possibly grown, window. */
    method SubmitSearch(text: string, server: Server<Option<string>, Customer>)
      requires Valid()
      modifies this`orders, this`hasMoreOrders, this`loading, this`loadingMore, this`searchInput
      ensures Valid() && currentLimit == old(currentLimit) && searchInput == text
      ensures !loading && !loadingMore
      ensures var q := QueryFor(text, currentLimit);
        match Answer(server, 0, q.customer, q.number)
        case Failed => orders == [] && hasMoreOrders == old(hasMoreOrders)
        case Answered(list) => orders == Records(list) && hasMoreOrders == HasMore(|Records(list)|, currentLimit)
    {
      searchInput := text;
      LoadOrders(text, false, currentLimit, server);
    }
  }
}
