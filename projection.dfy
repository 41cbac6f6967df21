/** The list of orders the page displays: a status selector and a free-text
    search applied to the stored orders, and the counts on the filter chips. */
module Projection {
  import opened Text
  import opened Seqs
  import opened Orders

  /** The status selector: `'all'` or one status. */
  datatype Selector = All | Only(status: Status)

  /** The status step's callback. */
  function HasStatus(status: Status): Order -> bool {
    (o: Order) => o.status == status
  }

  /** The search step's callback: the (already lowercased) query occurs in
      the lowercased customer, id, service, source or destination. */
  predicate MatchesQuery(o: Order, query: string) {
    Includes(Lower(o.customer), query)
    || Includes(Lower(o.id), query)
    || Includes(Lower(o.service), query)
    || Includes(Lower(o.source), query)
    || Includes(Lower(o.destination), query)
  }

  function Matches(query: string): Order -> bool {
    (o: Order) => MatchesQuery(o, query)
  }

  /** The selector lets the order through. */
  predicate Admits(selector: Selector, o: Order) {
    selector.All? || o.status == selector.status
  }

  function AdmittedBy(selector: Selector): Order -> bool {
    (o: Order) => Admits(selector, o)
  }

  /** An order is displayed when the selector admits it and, unless the
      search text is blank, the lowercased search text (not trimmed) occurs
      in one of its five searchable fields. */
  predicate Shown(selector: Selector, searchQuery: string, o: Order) {
    Admits(selector, o) && (IsBlank(searchQuery) || MatchesQuery(o, Lower(searchQuery)))
  }

  function ShownBy(selector: Selector, searchQuery: string): Order -> bool {
    (o: Order) => Shown(selector, searchQuery, o)
  }

  /** The displayed list: the shown orders, in store order. */
  function Displayed(orders: seq<Order>, selector: Selector, searchQuery: string): (r: seq<Order>)
    ensures |r| <= |orders|
    ensures forall i :: 0 <= i < |r| ==> Shown(selector, searchQuery, r[i])
  {
    Filter(orders, ShownBy(selector, searchQuery))
  }

  /** The status step (skipped for `'all'`) keeps exactly the admitted
      orders. */
  lemma StatusStep(orders: seq<Order>, selector: Selector)
    ensures (if selector.All? then orders else Filter(orders, HasStatus(selector.status)))
            == Filter(orders, AdmittedBy(selector))
  {
    if selector.All? {
      FilterKeepsAll(orders, AdmittedBy(selector));
    } else {
      FilterCongruent(orders, HasStatus(selector.status), AdmittedBy(selector));
    }
  }

  /** The search step, run only when the trimmed search text is non-empty
      and matching with the lowercased untrimmed text, turns the admitted
      orders into the displayed list. */
  lemma SearchStep(orders: seq<Order>, selector: Selector, searchQuery: string)
    ensures (if Trim(searchQuery) != []
             then Filter(Filter(orders, AdmittedBy(selector)), Matches(Lower(searchQuery)))
             else Filter(orders, AdmittedBy(selector)))
            == Displayed(orders, selector, searchQuery)
  {
    TrimEmptyIffBlank(searchQuery);
    if Trim(searchQuery) != [] {
      SearchStepApplied(orders, selector, searchQuery);
    } else {
      SearchStepSkipped(orders, selector, searchQuery);
    }
  }

  /** For a non-blank text, status then search is the displayed list. */
  lemma SearchStepApplied(orders: seq<Order>, selector: Selector, searchQuery: string)
    requires !IsBlank(searchQuery)
    ensures Filter(Filter(orders, AdmittedBy(selector)), Matches(Lower(searchQuery)))
            == Displayed(orders, selector, searchQuery)
  {
    var admitted, matches := AdmittedBy(selector), Matches(Lower(searchQuery));
    FilterFuse(orders, admitted, matches);
    FilterCongruent(orders, Both(admitted, matches), ShownBy(selector, searchQuery));
  }

  /** For a blank text, the status step alone is the displayed list. */
  lemma SearchStepSkipped(orders: seq<Order>, selector: Selector, searchQuery: string)
    requires IsBlank(searchQuery)
    ensures Filter(orders, AdmittedBy(selector)) == Displayed(orders, selector, searchQuery)
  {
    FilterCongruent(orders, AdmittedBy(selector), ShownBy(selector, searchQuery));
  }

  /** The displayed list is a subsequence of the stored orders: same
      relative order, nothing added. */
  lemma DisplayedIsSubsequence(orders: seq<Order>, selector: Selector, searchQuery: string)
    ensures IsSubsequence(Displayed(orders, selector, searchQuery), orders)
  {
    FilterIsSubsequence(orders, ShownBy(selector, searchQuery));
  }

  /** Each shown order appears as often as it is stored, every other order
      not at all: no duplicates are introduced and nothing shown is lost. */
  lemma DisplayedMultiplicity(orders: seq<Order>, selector: Selector, searchQuery: string, o: Order)
    ensures multiset(Displayed(orders, selector, searchQuery))[o]
            == if Shown(selector, searchQuery, o) then multiset(orders)[o] else 0
  {
    FilterMultiset(orders, ShownBy(selector, searchQuery), o);
  }

  /** Soundness and completeness: an order is displayed exactly when it is
      stored, has the selected status (unless the selector is `'all'`) and,
      when the search text is not blank, one of its five fields contains the
      lowercased search text. */
  lemma DisplayedSoundAndComplete(orders: seq<Order>, selector: Selector, searchQuery: string, o: Order)
    ensures o in Displayed(orders, selector, searchQuery)
            <==> o in orders
                 && (selector.Only? ==> o.status == selector.status)
                 && (!IsBlank(searchQuery) ==> MatchesQuery(o, Lower(searchQuery)))
  {
    FilterMembership(orders, ShownBy(selector, searchQuery), o);
  }

  /** With `'all'` and a blank search text every stored order is displayed,
      in store order. */
  lemma DisplayedAllWhenUnfiltered(orders: seq<Order>, searchQuery: string)
    requires IsBlank(searchQuery)
    ensures Displayed(orders, All, searchQuery) == orders
  {
    FilterKeepsAll(orders, ShownBy(All, searchQuery));
  }

  /** The search ignores ASCII case: two search texts with the same
      lowercase form display the same list. */
  lemma DisplayedCaseInsensitive(orders: seq<Order>, selector: Selector, q1: string, q2: string)
    requires Lower(q1) == Lower(q2)
    ensures Displayed(orders, selector, q1) == Displayed(orders, selector, q2)
  {
    LowerKeepsBlank(q1);
    LowerKeepsBlank(q2);
    FilterCongruent(orders, ShownBy(selector, q1), ShownBy(selector, q2));
  }

  /** Projecting the displayed list again with the same selector and search
      text changes nothing. */
  lemma DisplayedIdempotent(orders: seq<Order>, selector: Selector, searchQuery: string)
    ensures Displayed(Displayed(orders, selector, searchQuery), selector, searchQuery)
            == Displayed(orders, selector, searchQuery)
  {
    FilterIdempotent(orders, ShownBy(selector, searchQuery));
  }

  /** If the stored ids are unique, so are the displayed ones. */
  lemma DisplayedKeepsUniqueIds(orders: seq<Order>, selector: Selector, searchQuery: string)
    requires DistinctKeys(orders, OrderId)
    ensures DistinctKeys(Displayed(orders, selector, searchQuery), OrderId)
  {
    FilterKeepsDistinctKeys(orders, ShownBy(selector, searchQuery), OrderId);
  }

  /** A filter chip: the selector it sets, its caption and its badge count. */
  datatype Chip = Chip(value: Selector, caption: string, count: nat)

  /** The count on a status chip: at most the number of orders, and zero
      exactly when no order has the status. */
  function StatusCount(orders: seq<Order>, status: Status): (c: nat)
    ensures c <= |orders|
    ensures c == 0 <==> forall i :: 0 <= i < |orders| ==> orders[i].status != status
  {
    FilterEmptyIffNone(orders, HasStatus(status));
    |Filter(orders, HasStatus(status))|
  }

  /** The six chips: `'all'`, counting every order, and one chip per status
      other than `rejected`, counting that status. No two chips set the same
      selector. */
  function FilterChips(orders: seq<Order>): (r: seq<Chip>)
    ensures |r| == 6
    ensures r[0].value == All && r[0].count == |orders|
    ensures forall i :: 1 <= i < 6 ==>
              && r[i].value.Only?
              && r[i].value.status != Rejected
              && r[i].count == StatusCount(orders, r[i].value.status)
    ensures forall i, j :: 0 <= i < j < 6 ==> r[i].value != r[j].value
  {
    [ Chip(All, "Semua", |orders|),
      Chip(Only(PendingApproval), "Pending", StatusCount(orders, PendingApproval)),
      Chip(Only(Approved), "Approved", StatusCount(orders, Approved)),
      Chip(Only(Conflict), "Conflict", StatusCount(orders, Conflict)),
      Chip(Only(Processing), "Processing", StatusCount(orders, Processing)),
      Chip(Only(Completed), "Completed", StatusCount(orders, Completed)) ]
  }

  /** The statuses of the stored orders, position by position. */
  function StatusesOf(orders: seq<Order>): (r: seq<Status>)
    ensures |r| == |orders|
    ensures forall i :: 0 <= i < |orders| ==> r[i] == orders[i].status
  {
    if orders == [] then [] else [orders[0].status] + StatusesOf(orders[1..])
  }

  /** A status chip counts exactly the positions holding that status. */
  lemma {:induction false} StatusCountIsOccurrences(orders: seq<Order>, status: Status)
    ensures StatusCount(orders, status) == multiset(StatusesOf(orders))[status]
  {
    if orders != [] {
      StatusCountIsOccurrences(orders[1..], status);
      assert StatusesOf(orders) == [orders[0].status] + StatusesOf(orders[1..]);
    }
  }

  /** Every chip's count is the number of rows displayed when it is selected
      and the search text is blank. */
  lemma ChipCountIsRowCount(orders: seq<Order>, i: nat, searchQuery: string)
    requires i < 6 && IsBlank(searchQuery)
    ensures FilterChips(orders)[i].count == |Displayed(orders, FilterChips(orders)[i].value, searchQuery)|
  {
    var chip := FilterChips(orders)[i];
    if chip.value.All? {
      DisplayedAllWhenUnfiltered(orders, searchQuery);
    } else {
      FilterCongruent(orders, HasStatus(chip.value.status), ShownBy(chip.value, searchQuery));
    }
  }

  /** The five status chips add up to the `'all'` chip minus the rejected
      orders, which no chip counts. */
  lemma StatusChipsSum(orders: seq<Order>)
    ensures var c := FilterChips(orders);
            c[1].count + c[2].count + c[3].count + c[4].count + c[5].count
            == c[0].count - StatusCount(orders, Rejected)
  {
    var statuses := StatusesOf(orders);
    StatusCountIsOccurrences(orders, PendingApproval);
    StatusCountIsOccurrences(orders, Approved);
    StatusCountIsOccurrences(orders, Conflict);
    StatusCountIsOccurrences(orders, Processing);
    StatusCountIsOccurrences(orders, Completed);
    StatusCountIsOccurrences(orders, Rejected);
    OccurrencesSum(statuses);
    ChipCountIsStatusCount(orders, 1);
    ChipCountIsStatusCount(orders, 2);
    ChipCountIsStatusCount(orders, 3);
    ChipCountIsStatusCount(orders, 4);
    ChipCountIsStatusCount(orders, 5);
  }

  /** Every position holds one of the six statuses, so their occurrences add
      up to the length. */
  lemma {:induction false} OccurrencesSum(statuses: seq<Status>)
    ensures var m := multiset(statuses);
            m[PendingApproval] + m[Approved] + m[Conflict] + m[Processing] + m[Completed] + m[Rejected]
            == |statuses|
  {
    if statuses != [] {
      OccurrencesSum(statuses[1..]);
      var m, rest := multiset(statuses), multiset(statuses[1..]);
      assert statuses == [statuses[0]] + statuses[1..];
      assert m == multiset{statuses[0]} + rest;
      forall st: Status ensures m[st] == rest[st] + if st == statuses[0] then 1 else 0 {
      }
    }
  }

  /** On the fixture, which holds one order of each status except
      `rejected`, selecting the status of an order displays that order
      alone. */
  lemma FixtureStatusViews(i: nat)
    requires i < 5
    ensures Displayed(MockOrders(), Only(MockOrders()[i].status), "") == [MockOrders()[i]]
  {
    var m := MockOrders();
    var p := ShownBy(Only(m[i].status), "");
    assert forall j :: 0 <= j < 5 ==> (p(m[j]) <==> j == i);
    assert m[4..][1..] == [];
    assert m[3..][1..] == m[4..];
    assert m[2..][1..] == m[3..];
    assert m[1..][1..] == m[2..];
  }

  /** On the fixture, selecting `rejected` displays nothing. */
  lemma FixtureRejectedView()
    ensures Displayed(MockOrders(), Only(Rejected), "") == []
  {
    FilterEmptyIffNone(MockOrders(), ShownBy(Only(Rejected), ""));
  }

  /** The statuses of the chips other than `'all'`, in chip order. */
  function ChipStatuses(): seq<Status> {
    [PendingApproval, Approved, Conflict, Processing, Completed]
  }

  /** Chip `i`, after `'all'`, counts the `i`-th chip status. */
  lemma ChipCountIsStatusCount(orders: seq<Order>, i: nat)
    requires 1 <= i < 6
    ensures FilterChips(orders)[i].count == StatusCount(orders, ChipStatuses()[i - 1])
  {
  }

  /** A store whose statuses are the chip statuses, in chip order, holds
      each of them once. */
  lemma OnePerChipStatus(orders: seq<Order>, k: nat)
    requires StatusesOf(orders) == ChipStatuses() && k < 5
    ensures StatusCount(orders, ChipStatuses()[k]) == 1
  {
    StatusCountIsOccurrences(orders, ChipStatuses()[k]);
    assert multiset(ChipStatuses()) == multiset{PendingApproval, Approved, Conflict, Processing, Completed};
  }

  /** A store holding one order of each chip status, in chip order, gives
      the `'all'` chip 5 and every status chip 1. */
  lemma ChipCountsOfOnePerStatus(orders: seq<Order>, i: nat)
    requires StatusesOf(orders) == ChipStatuses() && i < 6
    ensures FilterChips(orders)[i].count == if i == 0 then 5 else 1
  {
    assert |orders| == |ChipStatuses()|;
    if i > 0 {
      ChipCountIsStatusCount(orders, i);
      OnePerChipStatus(orders, i - 1);
    }
  }

  /** On the fixture, the `'all'` chip shows 5 and every status chip 1. */
  lemma FixtureChipCount(i: nat)
    requires i < 6
    ensures FilterChips(MockOrders())[i].count == if i == 0 then 5 else 1
  {
    MockOrdersStatuses();
    assert StatusesOf(MockOrders()) == ChipStatuses();
    ChipCountsOfOnePerStatus(MockOrders(), i);
  }
}
