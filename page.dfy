/** The orders page's state: the signals its handlers and its effect write. */
module Page {
  import opened Text
  import opened Seqs
  import opened Orders
  import opened Projection
  import opened Transitions
  import opened Wrappers

  /** A scheduled timer callback: the action to complete and its order id. */
  datatype Pending = Pending(orderId: string, action: Action)

  class OrdersPage {
    var orders: seq<Order>
    var filteredOrders: seq<Order>
    var searchQuery: string
    var selectedFilter: Selector
    var isLoading: bool
    var selectedOrder: Option<Order>
    var showOrderModal: bool

    /** The effect has run on the current signals: the displayed list is the
        projection of the stored orders. */
    ghost predicate Valid()
      reads this
    {
      filteredOrders == Displayed(orders, selectedFilter, searchQuery)
    }

    /** The page after mounting: the fixture is stored and displayed, the
        search text is empty, the selector is `'all'`, nothing is loading,
        no order is selected and the detail modal is closed. */
    constructor ()
      ensures orders == MockOrders() && filteredOrders == MockOrders()
      ensures searchQuery == "" && selectedFilter == All && !isLoading
      ensures selectedOrder == None && !showOrderModal
      ensures Valid()
    {
      orders := MockOrders();
      filteredOrders := MockOrders();
      searchQuery := "";
      selectedFilter := All;
      isLoading := false;
      selectedOrder := None;
      showOrderModal := false;
      new;
      DisplayedAllWhenUnfiltered(orders, searchQuery);
    }

    /** The filter-and-search effect: start from the stored orders, keep the
        selected status unless the selector is `'all'`, then, if the trimmed
        search text is non-empty, keep the orders one of whose five fields
        contains the lowercased search text. */
    method Refresh()
      modifies this`filteredOrders
      ensures Valid()
    {
      var filtered := orders;
      if selectedFilter != All {
        filtered := Filter(filtered, HasStatus(selectedFilter.status));
      }
      StatusStep(orders, selectedFilter);
      if Trim(searchQuery) != [] {
        var query := Lower(searchQuery);
        filtered := Filter(filtered, Matches(query));
      }
      SearchStep(orders, selectedFilter, searchQuery);
      filteredOrders := filtered;
    }

    /** Typing in the search box. */
    method SetSearchQuery(query: string)
      modifies this
      ensures searchQuery == query
      ensures orders == old(orders) && selectedFilter == old(selectedFilter) && isLoading == old(isLoading)
      ensures selectedOrder == old(selectedOrder) && showOrderModal == old(showOrderModal)
      ensures Valid()
    {
      searchQuery := query;
      Refresh();
    }

    /** Clicking a filter chip. */
    method SetSelectedFilter(selector: Selector)
      modifies this
      ensures selectedFilter == selector
      ensures orders == old(orders) && searchQuery == old(searchQuery) && isLoading == old(isLoading)
      ensures selectedOrder == old(selectedOrder) && showOrderModal == old(showOrderModal)
      ensures Valid()
    {
      selectedFilter := selector;
      Refresh();
    }

    /** `handleApproveOrder`: raises the loading flag and schedules the
        approval; the store is not touched yet. */
    method HandleApproveOrder(orderId: string) returns (callback: Pending)
      modifies this`isLoading
      ensures isLoading
      ensures callback == Pending(orderId, Approve)
    {
      isLoading := true;
      callback := Pending(orderId, Approve);
    }

    /** `handleRejectOrder`: raises the loading flag and schedules the
        rejection; the store is not touched yet. */
    method HandleRejectOrder(orderId: string) returns (callback: Pending)
      modifies this`isLoading
      ensures isLoading
      ensures callback == Pending(orderId, Reject)
    {
      isLoading := true;
      callback := Pending(orderId, Reject);
    }

    /** The scheduled callback firing at time `now`: every order with the id
        gets the action's status and `updated = now`, the loading flag is
        cleared and the effect reruns. The selected order is a snapshot and
        is not refreshed. */
    method Complete(callback: Pending, now: string)
      modifies this
      ensures orders == Apply(old(orders), callback.orderId, callback.action, now)
      ensures !isLoading
      ensures searchQuery == old(searchQuery) && selectedFilter == old(selectedFilter)
      ensures selectedOrder == old(selectedOrder) && showOrderModal == old(showOrderModal)
      ensures Valid()
    {
      orders := Apply(orders, callback.orderId, callback.action, now);
      isLoading := false;
      Refresh();
    }

    /** The row's details button: the order as the row shows it becomes the
        selection, and the detail modal opens. */
    method ViewDetails(order: Order)
      modifies this`selectedOrder, this`showOrderModal
      ensures selectedOrder == Some(order) && showOrderModal
    {
      selectedOrder := Some(order);
      showOrderModal := true;
    }

    /** The modal's close button; the selection is kept. */
    method CloseDetails()
      modifies this`showOrderModal
      ensures !showOrderModal
    {
      showOrderModal := false;
    }

    /** The actions the open detail modal offers, judged by the status of the
        selection, not by the stored order with its id. */
    function ModalActions(): (r: set<Action>)
      reads this
      ensures r != {} ==> showOrderModal && selectedOrder.Some?
      ensures r != {} ==> r == {Approve, Reject} && selectedOrder.value.status == PendingApproval
      ensures showOrderModal && selectedOrder.Some? && selectedOrder.value.status == PendingApproval ==> r == {Approve, Reject}
    {
      if showOrderModal && selectedOrder.Some? then Offered(Modal, selectedOrder.value.status, isLoading) else {}
    }

    /** A click on one of the modal's buttons: the action is scheduled for the
        selection's id and the modal closes. */
    method ModalAction(action: Action) returns (callback: Pending)
      requires action in ModalActions()
      modifies this`isLoading, this`showOrderModal
      ensures callback == Pending(selectedOrder.value.id, action)
      ensures isLoading && !showOrderModal
    {
      callback := Pending(selectedOrder.value.id, action);
      isLoading := true;
      showOrderModal := false;
    }
  }

  /** Approving one order of a store with unique ids: the flag is up while
      the approval is pending, and afterwards only that order has changed. */
  method ApproveScenario(page: OrdersPage, k: nat, now: string)
    requires DistinctKeys(page.orders, OrderId) && k < |page.orders|
    modifies page
  {
    ghost var before := page.orders;
    var callback := page.HandleApproveOrder(page.orders[k].id);
    assert page.isLoading && page.orders == before;
    page.Complete(callback, now);
    assert !page.isLoading;
    assert page.orders[k] == before[k].(status := Approved, updated := now);
    assert forall i :: 0 <= i < |before| && i != k ==> page.orders[i] == before[i] by {
      forall i | 0 <= i < |before| && i != k ensures page.orders[i] == before[i] {
        assert OrderId(before[i]) != OrderId(before[k]);
      }
    }
  }

  /** Rejecting an id that no order has leaves the store as it was. */
  method UnknownIdScenario(page: OrdersPage, orderId: string, now: string)
    requires forall i :: 0 <= i < |page.orders| ==> page.orders[i].id != orderId
    modifies page
  {
    ghost var before := page.orders;
    ApplyUnknownId(before, orderId, Reject, now);
    var callback := page.HandleRejectOrder(orderId);
    page.Complete(callback, now);
    assert page.orders == before;
  }

  /** The selection is a snapshot: a pending order approved from its row
      while its details are open still shows the pending buttons, and
      rejecting it there overwrites the approval. */
  method StaleSelectionScenario(page: OrdersPage, now: string)
    requires |page.orders| > 0 && page.orders[0].status == PendingApproval
    modifies page
  {
    var order := page.orders[0];
    var approval := page.HandleApproveOrder(order.id);
    page.ViewDetails(order);
    page.Complete(approval, now);
    assert page.orders[0].status == Approved;
    assert Reject in page.ModalActions();
    var rejection := page.ModalAction(Reject);
    page.Complete(rejection, now);
    assert page.orders[0].status == Rejected;
  }

  /** Two overlapping actions share one flag: the first callback to fire
      clears it while the second is still pending. */
  method OverlappingActionsScenario(page: OrdersPage, j: nat, k: nat, now: string)
    requires DistinctKeys(page.orders, OrderId) && j < |page.orders| && k < |page.orders| && j != k
    modifies page
  {
    ghost var before := page.orders;
    var first := page.HandleApproveOrder(page.orders[j].id);
    var second := page.HandleRejectOrder(page.orders[k].id);
    page.Complete(first, now);
    assert !page.isLoading;
    ghost var between := page.orders;
    assert OrderId(before[j]) != OrderId(before[k]);
    assert between[j].status == Approved && between[k].id == before[k].id;
    page.Complete(second, now);
    assert page.orders[j].status == Approved && page.orders[k].status == Rejected;
  }

  /** On the mounted page no fixture order has the id `ORD-999`, so
      rejecting that id leaves the store as it was. */
  method MountedScenario(now: string) {
    var page := new OrdersPage();
    MockOrdersIds();
    ghost var fixture := page.orders;
    forall i | 0 <= i < |fixture| ensures fixture[i].id != "ORD-999" {
      assert fixture[i].id[6] != '9';
    }
    UnknownIdScenario(page, "ORD-999", now);
  }
}
