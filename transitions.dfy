/** The two status actions of the orders page, approve and reject, as
    updates of the order sequence, and where the page offers them. */
module Transitions {
  import opened Seqs
  import opened Orders

  datatype Action = Approve | Reject

  /** The status an action writes. */
  function Target(action: Action): Status {
    match action
    case Approve => Approved
    case Reject => Rejected
  }

  /** The store after `action` completes for `orderId` at time `now`: every
      order with that id gets the action's status and `updated = now`; every
      other order is kept as it is. The order's current status is not
      consulted. */
  function Apply(orders: seq<Order>, orderId: string, action: Action, now: string): (r: seq<Order>)
    ensures |r| == |orders|
    ensures forall i :: 0 <= i < |orders| ==> r[i].id == orders[i].id
    ensures forall i :: 0 <= i < |orders| && orders[i].id == orderId ==>
              r[i] == orders[i].(status := Target(action), updated := now)
    ensures forall i :: 0 <= i < |orders| && orders[i].id != orderId ==> r[i] == orders[i]
  {
    if orders == [] then []
    else
      var head := if orders[0].id == orderId
                  then orders[0].(status := Target(action), updated := now)
                  else orders[0];
      [head] + Apply(orders[1..], orderId, action, now)
  }

  /** An id that matches no order leaves the store identical. */
  lemma ApplyUnknownId(orders: seq<Order>, orderId: string, action: Action, now: string)
    requires forall i :: 0 <= i < |orders| ==> orders[i].id != orderId
    ensures Apply(orders, orderId, action, now) == orders
  {
  }

  /** The ids, and hence their uniqueness, are kept. */
  lemma ApplyKeepsUniqueIds(orders: seq<Order>, orderId: string, action: Action, now: string)
    requires DistinctKeys(orders, OrderId)
    ensures DistinctKeys(Apply(orders, orderId, action, now), OrderId)
  {
    var r := Apply(orders, orderId, action, now);
    forall i, j | 0 <= i < j < |r| ensures OrderId(r[i]) != OrderId(r[j]) {
      assert OrderId(r[i]) == OrderId(orders[i]) && OrderId(r[j]) == OrderId(orders[j]);
    }
  }

  /** Two actions on the same id: the later one wins, whatever the earlier
      one wrote. */
  lemma ApplyLastWins(orders: seq<Order>, orderId: string, first: Action, t1: string, second: Action, t2: string)
    ensures Apply(Apply(orders, orderId, first, t1), orderId, second, t2) == Apply(orders, orderId, second, t2)
  {
    var a := Apply(Apply(orders, orderId, first, t1), orderId, second, t2);
    var b := Apply(orders, orderId, second, t2);
    forall i | 0 <= i < |orders| ensures a[i] == b[i] {
    }
  }

  /** Actions on two different ids commute: whichever timer fires first,
      the store ends up the same. */
  lemma ApplyCommutes(orders: seq<Order>, id1: string, a1: Action, t1: string, id2: string, a2: Action, t2: string)
    requires id1 != id2
    ensures Apply(Apply(orders, id1, a1, t1), id2, a2, t2) == Apply(Apply(orders, id2, a2, t2), id1, a1, t1)
  {
    var x := Apply(Apply(orders, id1, a1, t1), id2, a2, t2);
    var y := Apply(Apply(orders, id2, a2, t2), id1, a1, t1);
    forall i | 0 <= i < |orders| ensures x[i] == y[i] {
    }
  }

  /** Where a button for an action appears. */
  datatype Place = Row | Modal

  /** The actions a click can start for an order with `status`, given the
      page's loading flag: a row shows Approve on pending orders and Reject
      on conflicting ones, both disabled while loading; the detail modal
      shows Reject and Approve on pending orders and is not disabled. */
  function Offered(place: Place, status: Status, isLoading: bool): (r: set<Action>)
    ensures Approve in r ==> status == PendingApproval
    ensures Reject in r ==> status == PendingApproval || status == Conflict
    ensures place == Row && isLoading ==> r == {}
    ensures place == Row ==> (Approve in r <==> status == PendingApproval && !isLoading)
    ensures place == Row ==> (Reject in r <==> status == Conflict && !isLoading)
    ensures place == Modal ==> r == if status == PendingApproval then {Approve, Reject} else {}
  {
    match place
    case Row =>
      if isLoading then {}
      else if status == PendingApproval then {Approve}
      else if status == Conflict then {Reject}
      else {}
    case Modal =>
      if status == PendingApproval then {Approve, Reject} else {}
  }

  /** The status changes a user can start: approving or rejecting a pending
      order, and rejecting a conflicting one. Nothing else is offered. */
  lemma OfferedTransitions(status: Status, action: Action)
    ensures (exists place, isLoading :: action in Offered(place, status, isLoading))
            <==> (status == PendingApproval || (status == Conflict && action == Reject))
  {
    if status == PendingApproval || (status == Conflict && action == Reject) {
      var place := if status == PendingApproval then Modal else Row;
      assert action in Offered(place, status, false);
    }
  }

  /** While an action is pending, the rows offer nothing, but the modal still
      offers both actions on a pending order. */
  lemma LoadingBlocksOnlyRows(status: Status)
    ensures Offered(Row, status, true) == {}
    ensures Offered(Modal, status, true) == Offered(Modal, status, false)
  {
  }
}
