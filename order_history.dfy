/**
 * The order-history page's display mappings: an order status's text and
 * colour, the payment-method label, and which optional times and payment
 * details a row shows. Orders and payment records are read, never changed.
 */
module OrderHistory {
  import opened Wrappers

  /** The closed set of statuses an order can have. */
  datatype OrderStatus = Pending | Paid | Completed | Cancelled

  function StatusName(st: OrderStatus): string {
    match st
    case Pending => "pending"
    case Paid => "paid"
    case Completed => "completed"
    case Cancelled => "cancelled"
  }

  /** The status a stored status string names, if any. */
  function ParseStatus(s: string): (r: Option<OrderStatus>)
    ensures r.Some? ==> StatusName(r.value) == s
  {
    if s == "pending" then Some(Pending)
    else if s == "paid" then Some(Paid)
    else if s == "completed" then Some(Completed)
    else if s == "cancelled" then Some(Cancelled)
    else None
  }

  lemma ParseStatusName(st: OrderStatus)
    ensures ParseStatus(StatusName(st)) == Some(st)
  {
  }

  const UnknownStatusText: string := "未知状态"
  const UnknownStatusColor: string := "#95a5a6"

  /** `getStatusText(status)`: a label per known status, "未知状态" for anything else. */
  function StatusText(status: string): (text: string)
    ensures text == UnknownStatusText <==> ParseStatus(status).None?
  {
    if status == "pending" then "待支付"
    else if status == "paid" then "已支付"
    else if status == "completed" then "已完成"
    else if status == "cancelled" then "已取消"
    else UnknownStatusText
  }

  /** `getStatusColor(status)`: a colour per known status, grey for anything else. */
  function StatusColor(status: string): (color: string)
    ensures color == UnknownStatusColor <==> ParseStatus(status).None?
  {
    if status == "pending" then "#f39c12"
    else if status == "paid" then "#27ae60"
    else if status == "completed" then "#2ecc71"
    else if status == "cancelled" then "#e74c3c"
    else UnknownStatusColor
  }

  /** The four known statuses have four different texts and four different colours. */
  lemma KnownStatusesDistinguished(s1: OrderStatus, s2: OrderStatus)
    requires s1 != s2
    ensures StatusText(StatusName(s1)) != StatusText(StatusName(s2))
    ensures StatusColor(StatusName(s1)) != StatusColor(StatusName(s2))
  {
  }

  /** The payment method's label: "微信支付" exactly for "wechat", "激活码" for anything else. */
  function PaymentMethodLabel(paymentMethod: string): (text: string)
    ensures text == "微信支付" <==> paymentMethod == "wechat"
    ensures text == "激活码" <==> paymentMethod != "wechat"
  {
    if paymentMethod == "wechat" then "微信支付" else "激活码"
  }

  /** An order as the page reads it; the paid and completed times may be missing. */
  datatype Order = Order(
    orderId: string,
    courseId: nat,
    amount: real,
    paymentMethod: string,
    status: string,
    createdAt: string,
    paidAt: Option<string>,
    completedAt: Option<string>)

  /** A JavaScript string is truthy when it is present and not empty. */
  function Present(t: Option<string>): (b: bool)
    ensures b <==> t != None && t != Some("")
  {
    t.Some? && t.value != ""
  }

  /** The times an order row lists: creation, then payment and completion when present. */
  function OrderTimes(o: Order): (times: seq<string>)
    ensures |times| == 1 + (if Present(o.paidAt) then 1 else 0) + (if Present(o.completedAt) then 1 else 0)
    ensures times[0] == o.createdAt
    ensures Present(o.paidAt) ==> times[1] == o.paidAt.value
    ensures Present(o.completedAt) ==> times[|times| - 1] == o.completedAt.value
    ensures forall i :: 1 <= i < |times| ==> times[i] != ""
  {
    [o.createdAt]
      + (if Present(o.paidAt) then [o.paidAt.value] else [])
      + (if Present(o.completedAt) then [o.completedAt.value] else [])
  }

  /** A payment record as the page reads it; `details` may be missing. */
  datatype PaymentRecord = PaymentRecord(
    recordId: string,
    orderId: string,
    transactionId: string,
    amount: real,
    paymentMethod: string,
    recordedAt: string,
    details: Option<map<string, string>>)

  /** The extra-details block is shown only for a present, non-empty details object. */
  function ShowsDetails(r: PaymentRecord): (b: bool)
    ensures b <==> r.details != None && r.details != Some(map[])
  {
    r.details.Some? && |r.details.value| > 0
  }

  /** What a payment row shows besides its raw fields. */
  datatype PaymentRow = PaymentRow(methodText: string, extra: Option<map<string, string>>)

  function RenderPayment(r: PaymentRecord): (row: PaymentRow)
    ensures row.methodText == PaymentMethodLabel(r.paymentMethod)
    ensures row.extra.Some? <==> ShowsDetails(r)
    ensures row.extra.Some? ==> row.extra == r.details && |row.extra.value| > 0
  {
    PaymentRow(PaymentMethodLabel(r.paymentMethod), if ShowsDetails(r) then r.details else None)
  }

  /** What an order row shows besides its raw fields. */
  datatype OrderRow = OrderRow(statusText: string, statusColor: string, methodText: string, times: seq<string>)

  function RenderOrder(o: Order): (row: OrderRow)
    ensures (row.statusText == UnknownStatusText) == (row.statusColor == UnknownStatusColor)
    ensures row.statusText == StatusText(o.status) && row.statusColor == StatusColor(o.status)
    ensures row.methodText == PaymentMethodLabel(o.paymentMethod)
    ensures row.times == OrderTimes(o)
  {
    OrderRow(StatusText(o.status), StatusColor(o.status), PaymentMethodLabel(o.paymentMethod), OrderTimes(o))
  }
}
