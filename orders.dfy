/** The service-order entity of the orders page, its display tables and the
    fixture the page loads. */
module Orders {
  import opened Text
  import opened Seqs

  /** The six values of an order's `status`. */
  datatype Status = PendingApproval | Approved | Conflict | Processing | Completed | Rejected

  /** The four values of an order's `priority`. */
  datatype Priority = Low | Medium | High | Critical

  /** A service order. `created`, `updated` and `estimatedCompletion` are
      timestamps kept as the strings the page stores; `utilization` is a
      percentage. */
  datatype Order = Order(
    id: string,
    customer: string,
    service: string,
    source: string,
    destination: string,
    status: Status,
    bandwidth: string,
    priority: Priority,
    created: string,
    updated: string,
    conflicts: seq<string>,
    uimStatus: string,
    nmsStatus: string,
    utilization: int,
    estimatedCompletion: string)

  /** The icon components the status badges use. */
  datatype Icon = Clock | CheckCircle | AlertTriangle | RefreshCw | XCircle

  datatype StatusConfig = StatusConfig(caption: string, bgColor: string, textColor: string, borderColor: string, icon: Icon)

  datatype PriorityConfig = PriorityConfig(color: string, bg: string)

  /** The badge for each status: an Indonesian label, three colour classes
      and an icon. The colours are a background, a text and a border class,
      in that order, and only approved and completed orders get the
      check-circle icon. */
  function GetStatusConfig(status: Status): (c: StatusConfig)
    ensures StartsWith(c.bgColor, "bg-") && StartsWith(c.textColor, "text-") && StartsWith(c.borderColor, "border-")
    ensures c.icon == CheckCircle <==> status == Approved || status == Completed
  {
    match status
    case PendingApproval =>
      StatusConfig("Menunggu Persetujuan", "bg-yellow-500/20", "text-yellow-300", "border-yellow-500/30", Clock)
    case Approved =>
      StatusConfig("Disetujui", "bg-green-500/20", "text-green-300", "border-green-500/30", CheckCircle)
    case Conflict =>
      StatusConfig("Konflik Terdeteksi", "bg-red-500/20", "text-red-300", "border-red-500/30", AlertTriangle)
    case Processing =>
      StatusConfig("Sedang Diproses", "bg-blue-500/20", "text-blue-300", "border-blue-500/30", RefreshCw)
    case Completed =>
      StatusConfig("Selesai", "bg-purple-500/20", "text-purple-300", "border-purple-500/30", CheckCircle)
    case Rejected =>
      StatusConfig("Ditolak", "bg-gray-500/20", "text-gray-300", "border-gray-500/30", XCircle)
  }

  /** Distinct statuses get distinct labels and distinct text colours, so a
      badge identifies its status. */
  lemma StatusConfigDistinct(a: Status, b: Status)
    requires a != b
    ensures GetStatusConfig(a).caption != GetStatusConfig(b).caption
    ensures GetStatusConfig(a).textColor != GetStatusConfig(b).textColor
  {
    var la, lb := GetStatusConfig(a).caption, GetStatusConfig(b).caption;
    var ta, tb := GetStatusConfig(a).textColor, GetStatusConfig(b).textColor;
    assert |la| != |lb| || la[0] != lb[0];
    assert |ta| != |tb| || ta[5] != tb[5];
  }

  /** The badge icon does not identify the status: approved and completed
      orders both show the check-circle icon. */
  lemma ApprovedAndCompletedShareIcon()
    ensures GetStatusConfig(Approved).icon == GetStatusConfig(Completed).icon == CheckCircle
  {
  }

  /** The colour classes for each priority: a text and a background class. */
  function GetPriorityConfig(priority: Priority): (c: PriorityConfig)
    ensures StartsWith(c.color, "text-") && StartsWith(c.bg, "bg-")
  {
    match priority
    case Low => PriorityConfig("text-gray-400", "bg-gray-500/20")
    case Medium => PriorityConfig("text-blue-300", "bg-blue-500/20")
    case High => PriorityConfig("text-orange-300", "bg-orange-500/20")
    case Critical => PriorityConfig("text-red-300", "bg-red-500/20")
  }

  /** Distinct priorities get distinct text and background colours. */
  lemma PriorityConfigDistinct(a: Priority, b: Priority)
    requires a != b
    ensures GetPriorityConfig(a).color != GetPriorityConfig(b).color
    ensures GetPriorityConfig(a).bg != GetPriorityConfig(b).bg
  {
    var ca, cb := GetPriorityConfig(a).color, GetPriorityConfig(b).color;
    var ba, bb := GetPriorityConfig(a).bg, GetPriorityConfig(b).bg;
    assert |ca| != |cb| || ca[5] != cb[5];
    assert |ba| != |bb| || ba[3] != bb[3];
  }

  /** The four utilisation bands, from least to most loaded. */
  datatype Band = Green | Yellow | Orange | Red

  /** The band a utilisation percentage falls in: red from 90, orange on
      [75, 90), yellow on [50, 75), green below 50. */
  function UtilizationBand(utilization: int): (b: Band)
    ensures b == Red <==> 90 <= utilization
    ensures b == Orange <==> 75 <= utilization < 90
    ensures b == Yellow <==> 50 <= utilization < 75
    ensures b == Green <==> utilization < 50
  {
    if utilization >= 90 then Red
    else if utilization >= 75 then Orange
    else if utilization >= 50 then Yellow
    else Green
  }

  function BandRank(b: Band): nat {
    match b
    case Green => 0
    case Yellow => 1
    case Orange => 2
    case Red => 3
  }

  /** A higher utilisation never falls in a lower band. */
  lemma {:induction false} UtilizationBandMonotone(u: int, v: int)
    requires u <= v
    ensures BandRank(UtilizationBand(u)) <= BandRank(UtilizationBand(v))
  {
  }

  function BandTextClass(b: Band): string {
    match b
    case Red => "text-red-400"
    case Orange => "text-orange-400"
    case Yellow => "text-yellow-400"
    case Green => "text-green-400"
  }

  function BandBarClass(b: Band): string {
    match b
    case Red => "bg-red-500"
    case Orange => "bg-orange-500"
    case Yellow => "bg-yellow-500"
    case Green => "bg-green-500"
  }

  /** `getUtilizationColor`: the text colour of a utilisation figure. */
  function GetUtilizationColor(utilization: int): (c: string)
    ensures c == BandTextClass(UtilizationBand(utilization))
  {
    if utilization >= 90 then "text-red-400"
    else if utilization >= 75 then "text-orange-400"
    else if utilization >= 50 then "text-yellow-400"
    else "text-green-400"
  }

  /** The fill colour of the utilisation bar, written inline in the table
      row and again in the detail modal. */
  function UtilizationBarColor(utilization: int): (c: string)
    ensures c == BandBarClass(UtilizationBand(utilization))
  {
    if utilization >= 90 then "bg-red-500"
    else if utilization >= 75 then "bg-orange-500"
    else if utilization >= 50 then "bg-yellow-500"
    else "bg-green-500"
  }

  /** The text colour and the bar colour cut at the same thresholds: two
      utilisations get the same text colour exactly when they get the same
      bar colour. */
  lemma UtilizationColorsAgree(u: int, v: int)
    ensures GetUtilizationColor(u) == GetUtilizationColor(v) <==> UtilizationBarColor(u) == UtilizationBarColor(v)
  {
    var bu, bv := UtilizationBand(u), UtilizationBand(v);
    if bu != bv {
      var tu, tv := BandTextClass(bu), BandTextClass(bv);
      var cu, cv := BandBarClass(bu), BandBarClass(bv);
      assert tu[5] != tv[5] && cu[3] != cv[3];
    }
  }

  /** The five orders the page loads on mount. */
  function MockOrders(): seq<Order> {
    [ Order("ORD-001", "Telkomsel Jakarta", "Metro-E 10 Gbps", "TBS 1", "BTS Jagakarsa",
            PendingApproval, "10 Gbps", High, "2024-01-15T10:30:00", "2024-01-15T14:22:00",
            ["bandwidth_utilization"], "available", "conflict_detected", 75, "2024-01-16T16:00:00"),
      Order("ORD-002", "Bank Mandiri Pusat", "Dedicated Internet 5 Gbps", "TBS 2", "DC Kelapa Gading",
            Approved, "5 Gbps", Medium, "2024-01-14T09:15:00", "2024-01-15T11:45:00",
            [], "available", "available", 45, "2024-01-16T14:00:00"),
      Order("ORD-003", "Universitas Indonesia", "Metro-E 25 Gbps", "TBS 1", "Campus Depok",
            Conflict, "25 Gbps", High, "2024-01-15T08:45:00", "2024-01-15T15:10:00",
            ["capacity_exceeded", "route_unavailable"], "limited", "unavailable", 95, "2024-01-18T12:00:00"),
      Order("ORD-004", "PT Astra International", "MPLS 15 Gbps", "TBS 3", "HQ Sunter",
            Processing, "15 Gbps", High, "2024-01-13T14:20:00", "2024-01-15T16:30:00",
            [], "available", "provisioning", 60, "2024-01-16T18:00:00"),
      Order("ORD-005", "Shopee Indonesia", "Cloud Connect 50 Gbps", "TBS 4", "AWS Direct Connect",
            Completed, "50 Gbps", Critical, "2024-01-12T11:00:00", "2024-01-15T13:15:00",
            [], "active", "active", 80, "2024-01-15T12:00:00") ]
  }

  /** The key the page uses to find an order. */
  function OrderId(o: Order): string {
    o.id
  }

  /** The fixture holds one order per status other than `rejected`, in
      the order of the filter chips. */
  lemma MockOrdersStatuses()
    ensures |MockOrders()| == 5
    ensures MockOrders()[0].status == PendingApproval && MockOrders()[1].status == Approved
    ensures MockOrders()[2].status == Conflict && MockOrders()[3].status == Processing
    ensures MockOrders()[4].status == Completed
  {
  }

  /** The fixture's ids are `ORD-001` to `ORD-005`, all distinct. */
  lemma MockOrdersIds()
    ensures |MockOrders()| == 5
    ensures forall i :: 0 <= i < 5 ==> MockOrders()[i].id == "ORD-00" + [['1', '2', '3', '4', '5'][i]]
    ensures DistinctKeys(MockOrders(), OrderId)
  {
    var m := MockOrders();
    forall i, j | 0 <= i < j < |m| ensures OrderId(m[i]) != OrderId(m[j]) {
      assert m[i].id[6] != m[j].id[6];
    }
  }
}
