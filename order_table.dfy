/** The order table: its filter (the page filter plus a creation-date
    filter), the modal state behind the edit and create buttons, the row
    numbers and the empty-state notices. `toLocaleDateString('zh-CN')` is a
    parameter. */
module OrderTable {
  import opened Base
  import opened Seqs
  import opened Schema
  import opened OrdersPage
  import opened OrderModal

  /** `!filterDate || dateText(order.createdAt).includes(filterDate)`. */
  predicate MatchesDate(dateText: Timestamp -> string, date: string, o: OrderView)
  {
    date == "" || Contains(dateText(o.createdAt), date)
  }

  function TableMatch(lower: char -> char, dateText: Timestamp -> string,
                      term: string, status: string, date: string): OrderView -> bool
  {
    (o: OrderView) => MatchesSearch(lower, term, o) && MatchesStatus(status, o) && MatchesDate(dateText, date, o)
  }

  function TableFiltered(orders: seq<OrderView>, lower: char -> char, dateText: Timestamp -> string,
                         term: string, status: string, date: string): seq<OrderView>
  {
    Filter(orders, TableMatch(lower, dateText, term, status, date))
  }

  /** The rows shown keep the order of `orders` and are exactly the orders
      meeting all three conditions. */
  lemma TableFilteredSpec(orders: seq<OrderView>, lower: char -> char, dateText: Timestamp -> string,
                          term: string, status: string, date: string)
    ensures IsSubsequence(TableFiltered(orders, lower, dateText, term, status, date), orders)
    ensures forall o :: o in TableFiltered(orders, lower, dateText, term, status, date)
                   <==> o in orders && MatchesSearch(lower, term, o) && MatchesStatus(status, o) && MatchesDate(dateText, date, o)
  {
    FilterIsSubsequence(orders, TableMatch(lower, dateText, term, status, date));
  }

  /** An empty date filter leaves the table filter equal to the page filter. */
  lemma EmptyDateIsPageFilter(orders: seq<OrderView>, lower: char -> char, dateText: Timestamp -> string,
                              term: string, status: string)
    ensures TableFiltered(orders, lower, dateText, term, status, "") == FilteredOrders(orders, lower, term, status)
  {
    FilterAgree(orders, TableMatch(lower, dateText, term, status, ""), PageMatch(lower, term, status));
  }

  /** `filteredOrders.map((order, index) => ... {index + 1} ...)`. */
  function NumberedRows(filtered: seq<OrderView>): (rows: seq<(nat, OrderView)>)
    ensures |rows| == |filtered|
    ensures forall i :: 0 <= i < |rows| ==> rows[i].1 == filtered[i]
  {
    seq(|filtered|, i requires 0 <= i < |filtered| => (i + 1, filtered[i]))
  }

  /** The numbers run 1, 2, ..., n down the table, one per row. */
  lemma RowNumbersCount(filtered: seq<OrderView>)
    ensures var rows := NumberedRows(filtered);
      && (forall i :: 0 <= i < |rows| ==> rows[i].0 == i + 1)
      && (forall i, j :: 0 <= i < |rows| && 0 <= j < |rows| && rows[i].0 == rows[j].0 ==> i == j)
      && (rows != [] ==> rows[0].0 == 1 && rows[|rows| - 1].0 == |filtered|)
  {
  }

  const NoMatch: string := "没有找到匹配的订单"
  const NoData: string := "暂无订单数据"

  /** The notices the table renders: the in-table placeholder whenever the
      filtered list is empty, then one of the two messages below the table. */
  function Notices(orders: seq<OrderView>, filtered: seq<OrderView>): (ns: seq<string>)
    ensures filtered != [] ==> ns == []
    ensures filtered == [] && orders != [] ==> ns == [NoMatch, NoMatch]
    ensures filtered == [] && orders == [] ==> ns == [NoMatch, NoData]
  {
    if |filtered| > 0 then []
    else [NoMatch] + (if |orders| > 0 then [NoMatch] else []) + (if |orders| == 0 then [NoData] else [])
  }

  /** `暂无订单数据` appears exactly when there are no orders at all. */
  lemma NoDataOnlyWhenEmpty(orders: seq<OrderView>, lower: char -> char, dateText: Timestamp -> string,
                            term: string, status: string, date: string)
    ensures NoData in Notices(orders, TableFiltered(orders, lower, dateText, term, status, date)) <==> orders == []
  {
    var f := TableFiltered(orders, lower, dateText, term, status, date);
    assert NoMatch != NoData;
    if orders == [] {
      assert f == [];
    }
  }

  class Table {
    var showModal: bool
    var currentOrder: Option<OrderView>
    var modalMode: Mode
    var searchTerm: string
    var filterStatus: string
    var filterDate: string

    /** An open modal is in edit mode exactly when it has an order to edit. */
    predicate Consistent()
      reads this
    {
      showModal ==> (modalMode == Edit <==> currentOrder.Some?)
    }

    constructor ()
      ensures !showModal && currentOrder.None? && modalMode == Create
      ensures searchTerm == "" && filterStatus == All && filterDate == ""
      ensures Consistent()
    {
      showModal := false;
      currentOrder := None;
      modalMode := Create;
      searchTerm := "";
      filterStatus := All;
      filterDate := "";
    }

    /** `handleEdit`. */
    method HandleEdit(order: OrderView)
      modifies this
      ensures currentOrder == Some(order) && modalMode == Edit && showModal
      ensures searchTerm == old(searchTerm) && filterStatus == old(filterStatus) && filterDate == old(filterDate)
      ensures Consistent()
    {
      currentOrder := Some(order);
      modalMode := Edit;
      showModal := true;
    }

    /** `handleCreate`. */
    method HandleCreate()
      modifies this
      ensures currentOrder.None? && modalMode == Create && showModal
      ensures searchTerm == old(searchTerm) && filterStatus == old(filterStatus) && filterDate == old(filterDate)
      ensures Consistent()
    {
      currentOrder := None;
      modalMode := Create;
      showModal := true;
    }

    /** `handleModalClose`, up to the timer it starts. */
    method HandleModalClose()
      modifies this
      ensures !showModal && currentOrder == old(currentOrder) && modalMode == old(modalMode)
      ensures searchTerm == old(searchTerm) && filterStatus == old(filterStatus) && filterDate == old(filterDate)
      ensures Consistent()
    {
      showModal := false;
    }

    /** The timer callback as written: it clears the order whether or not
        the modal has been opened again in the meantime. */
    method CloseTimerFires()
      modifies this
      ensures currentOrder.None? && showModal == old(showModal) && modalMode == old(modalMode)
      ensures searchTerm == old(searchTerm) && filterStatus == old(filterStatus) && filterDate == old(filterDate)
    {
      currentOrder := None;
    }

    /** The timer callback as intended: it clears the order only while the
        modal is still closed, and so keeps the table consistent. */
    method CloseTimerFiresGuarded()
      requires Consistent()
      modifies this
      ensures !old(showModal) ==> currentOrder.None?
      ensures old(showModal) ==> currentOrder == old(currentOrder)
      ensures showModal == old(showModal) && modalMode == old(modalMode)
      ensures searchTerm == old(searchTerm) && filterStatus == old(filterStatus) && filterDate == old(filterDate)
      ensures Consistent()
    {
      if !showModal {
        currentOrder := None;
      }
    }
  }

  /** Close, then edit another order within the 300 ms, then the old timer
      fires: the modal is open in edit mode with no order. */
  method StaleTimerRace(first: OrderView, second: OrderView) returns (t: Table)
    ensures t.showModal && t.modalMode == Edit && t.currentOrder.None?
    ensures !t.Consistent()
  {
    t := new Table();
    t.HandleEdit(first);
    t.HandleModalClose();
    t.HandleEdit(second);
    t.CloseTimerFires();
  }

  /** The same sequence with the guarded callback leaves the second order in place. */
  method GuardedTimerRace(first: OrderView, second: OrderView) returns (t: Table)
    ensures t.showModal && t.modalMode == Edit && t.currentOrder == Some(second)
    ensures t.Consistent()
  {
    t := new Table();
    t.HandleEdit(first);
    t.HandleModalClose();
    t.HandleEdit(second);
    t.CloseTimerFiresGuarded();
  }
}
