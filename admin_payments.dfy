/** The admin payments table (`AdminPayments`): the summary cards, the status
    badges, the payment-method labels and the per-row actions. */
module AdminPayments {
  import opened JsCore
  import opened PaymentTypes

  /** `totalAmount`: the `reduce` over all payments that adds the amount of
      each COMPLETED one to the running sum. */
  function TotalAmount(payments: seq<Payment>): int {
    AddCompleted(0, payments)
  }

  function AddCompleted(sum: int, payments: seq<Payment>): int
    decreases |payments|
  {
    if payments == [] then sum
    else AddCompleted(if payments[0].status == Completed then sum + payments[0].amount else sum, payments[1..])
  }

  /** The fold adds exactly the amounts of the COMPLETED payments. */
  lemma {:induction false} AddCompletedSums(sum: int, payments: seq<Payment>)
    ensures AddCompleted(sum, payments) == sum + CompletedTotal(payments)
    decreases |payments|
  {
    if payments != [] {
      var next := if payments[0].status == Completed then sum + payments[0].amount else sum;
      AddCompletedSums(next, payments[1..]);
      assert payments == [payments[0]] + payments[1..];
      CompletedTotalConcat([payments[0]], payments[1..]);
      assert Filter([payments[0]], HasStatus(Completed)) ==
        (if payments[0].status == Completed then [payments[0]] else []);
    }
  }

  lemma TotalAmountIsCompletedTotal(payments: seq<Payment>)
    ensures TotalAmount(payments) == CompletedTotal(payments)
  {
    AddCompletedSums(0, payments);
  }

  datatype Summary = Summary(totalAmount: int, successfulCount: nat, pendingCount: nat, failedCount: nat)

  /** `PaymentSummary`. */
  function PaymentSummary(payments: seq<Payment>): (r: Summary)
    ensures r.totalAmount == CompletedTotal(payments)
    ensures r.successfulCount + r.pendingCount + r.failedCount
      == |payments| - Count(payments, HasStatus(Refunded))
  {
    TotalAmountIsCompletedTotal(payments);
    StatusCountsSum(payments);
    Summary(TotalAmount(payments), Count(payments, HasStatus(Completed)),
      Count(payments, HasStatus(Pending)), Count(payments, HasStatus(Failed)))
  }

  /** Refunded payments are in no count, so the counts reach the number of
      payments exactly when none is refunded. */
  lemma CountsCoverAllButRefunded(payments: seq<Payment>)
    ensures var r := PaymentSummary(payments);
      r.successfulCount + r.pendingCount + r.failedCount <= |payments|
      && (r.successfulCount + r.pendingCount + r.failedCount == |payments|
          <==> forall i :: 0 <= i < |payments| ==> payments[i].status != Refunded)
  {
    var refunded := Filter(payments, HasStatus(Refunded));
    if forall i :: 0 <= i < |payments| ==> payments[i].status != Refunded {
      FilterKeepsNone(payments, HasStatus(Refunded));
    } else {
      var i :| 0 <= i < |payments| && payments[i].status == Refunded;
      assert payments[i] in refunded;
    }
  }

  datatype Variant = Success | Warning | Error | Info

  datatype Badge = Badge(variant: Variant, caption: string)

  /** `getStatusBadge`: defined for every status. */
  function StatusBadge(s: PaymentStatus): Badge {
    match s
    case Pending => Badge(Warning, "В очікуванні")
    case Completed => Badge(Success, "Завершений")
    case Failed => Badge(Error, "Невдалий")
    case Refunded => Badge(Info, "Повернутий")
  }

  /** No two statuses share a badge colour or caption. */
  lemma BadgesDistinct(s: PaymentStatus, t: PaymentStatus)
    requires s != t
    ensures StatusBadge(s).variant != StatusBadge(t).variant
    ensures StatusBadge(s).caption != StatusBadge(t).caption
  {
  }

  /** `getPaymentMethodLabel`: the three known methods get a Ukrainian label;
      any other value, the empty one included, is shown as it is, and a
      missing one stays without a label. */
  function PaymentMethodLabel(m: Option<string>): (r: Option<string>)
    ensures m.None? ==> r.None?
    ensures m == Some("card") ==> r == Some("Картка")
    ensures m == Some("bank_transfer") ==> r == Some("Банківський переказ")
    ensures m == Some("paypal") ==> r == Some("PayPal")
    ensures m.Some? && m.value !in {"card", "bank_transfer", "paypal"} ==> r == m
  {
    var key := OrElse(m, "");
    if key == "card" then Some("Картка")
    else if key == "bank_transfer" then Some("Банківський переказ")
    else if key == "paypal" then Some("PayPal")
    else m
  }

  /** The buttons of a row. */
  datatype RowAction = Details(payment: Payment) | Refund(id: int) | CopyTransaction(transactionId: string)

  function RowActions(p: Payment): (r: seq<RowAction>)
    ensures Details(p) in r && CopyTransaction(p.transactionId) in r
    ensures (exists id :: Refund(id) in r) <==> p.status == Completed
    ensures forall id :: Refund(id) in r ==> id == p.id
  {
    [Details(p)] + (if p.status == Completed then [Refund(p.id)] else []) + [CopyTransaction(p.transactionId)]
  }
}
