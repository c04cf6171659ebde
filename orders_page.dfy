/** The orders page: the search and status filter over the loaded orders,
    the status badge colour, and the filter reset. `toLowerCase` is a
    parameter applied character by character. */
module OrdersPage {
  import opened Seqs
  import opened Schema

  /** The status-filter value that lets every status through. */
  const All: string := "全部"

  /** `s.toLowerCase()`, given the per-character mapping. */
  function Lowered(lower: char -> char, s: string): (r: string)
    ensures |r| == |s| && forall i :: 0 <= i < |s| ==> r[i] == lower(s[i])
  {
    seq(|s|, i requires 0 <= i < |s| => lower(s[i]))
  }

  /** The search half: the lowered number or the lowered content includes the lowered term. */
  predicate MatchesSearch(lower: char -> char, term: string, o: OrderView)
  {
    Contains(Lowered(lower, o.orderNumber), Lowered(lower, term))
    || Contains(Lowered(lower, o.content), Lowered(lower, term))
  }

  predicate MatchesStatus(filter: string, o: OrderView)
  {
    filter == All || o.status == filter
  }

  /** The callback of `orders.filter`. */
  function PageMatch(lower: char -> char, term: string, filter: string): OrderView -> bool
  {
    (o: OrderView) => MatchesSearch(lower, term, o) && MatchesStatus(filter, o)
  }

  function FilteredOrders(orders: seq<OrderView>, lower: char -> char, term: string, filter: string): seq<OrderView>
  {
    Filter(orders, PageMatch(lower, term, filter))
  }

  /** The visible list keeps the page order and holds exactly the orders that
      match the search and the status filter. */
  lemma FilteredOrdersSpec(orders: seq<OrderView>, lower: char -> char, term: string, filter: string)
    ensures IsSubsequence(FilteredOrders(orders, lower, term, filter), orders)
    ensures forall o :: o in FilteredOrders(orders, lower, term, filter)
                   <==> o in orders && MatchesSearch(lower, term, o) && MatchesStatus(filter, o)
  {
    FilterIsSubsequence(orders, PageMatch(lower, term, filter));
  }

  lemma {:induction false} ContainsEmpty(s: string)
    ensures Contains(s, [])
  {
    assert IsPrefix([], s);
  }

  /** With an empty term and the `全部` filter every order is shown, in order. */
  lemma NoFilterShowsAll(orders: seq<OrderView>, lower: char -> char)
    ensures FilteredOrders(orders, lower, "", All) == orders
  {
    forall i | 0 <= i < |orders| ensures PageMatch(lower, "", All)(orders[i]) {
      ContainsEmpty(Lowered(lower, orders[i].orderNumber));
    }
    FilterKeepsAll(orders, PageMatch(lower, "", All));
  }

  const Yellow: string := "bg-yellow-100 text-yellow-800 border-yellow-200"
  const Green: string := "bg-green-100 text-green-800 border-green-200"
  const Purple: string := "bg-purple-100 text-purple-800 border-purple-200"
  const Gray: string := "bg-gray-100 text-gray-800 border-gray-200"

  /** `getStatusColor`. */
  function StatusColor(status: string): (c: string)
    ensures status == Placed ==> c == Yellow
    ensures status == Completed ==> c == Green
    ensures status == Settled ==> c == Purple
    ensures c == Gray <==> !InEnum(status)
  {
    if status == Placed then Yellow
    else if status == Completed then Green
    else if status == Settled then Purple
    else Gray
  }

  /** The three statuses get three different badges. */
  lemma StatusColorsDistinct()
    ensures StatusColor(Placed) != StatusColor(Completed)
    ensures StatusColor(Completed) != StatusColor(Settled)
    ensures StatusColor(Placed) != StatusColor(Settled)
  {
  }

  /** The state of the page that the filter reads. */
  class Page {
    var orders: seq<OrderView>
    var searchTerm: string
    var statusFilter: string

    /** The initial `useState` values, before the orders are loaded. */
    constructor ()
      ensures orders == [] && searchTerm == "" && statusFilter == All
    {
      orders := [];
      searchTerm := "";
      statusFilter := All;
    }

    function Visible(lower: char -> char): seq<OrderView>
      reads this
    {
      FilteredOrders(orders, lower, searchTerm, statusFilter)
    }

    /** `handleResetFilters`: afterwards every loaded order is visible again. */
    method ResetFilters(ghost lower: char -> char)
      modifies this
      ensures searchTerm == "" && statusFilter == All && orders == old(orders)
      ensures Visible(lower) == orders
    {
      searchTerm := "";
      statusFilter := All;
      NoFilterShowsAll(orders, lower);
    }
  }
}
