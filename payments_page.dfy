/** The user's payments page (`PaymentsPage`): the status filter buttons, the
    summary cards, what the page body shows and the per-row actions. */
module PaymentsPage {
  import opened JsCore
  import opened PaymentTypes
  import AdminPayments

  /** The values of the filter buttons, in the order they are shown. */
  const FilterValues := ["all", "pending", "completed", "failed"]

  predicate FilterKeeps(p: Payment, filter: string) {
    filter == "all" || StatusName(p.status) == UpperAscii(filter)
  }

  function Kept(filter: string): Payment -> bool {
    p => FilterKeeps(p, filter)
  }

  /** `filteredPayments`. */
  function FilteredPayments(payments: seq<Payment>, filter: string): (r: seq<Payment>)
    ensures IsSubsequence(r, payments)
    ensures forall p :: p in r <==> p in payments && FilterKeeps(p, filter)
  {
    FilterIsSubsequence(payments, Kept(filter));
    Filter(payments, Kept(filter))
  }

  lemma AllKeepsEverything(payments: seq<Payment>)
    ensures FilteredPayments(payments, "all") == payments
  {
    FilterKeepsAll(payments, Kept("all"));
  }

  /** Each other button keeps the payments of one status. */
  lemma ButtonsSelectOneStatus(p: Payment)
    ensures FilterKeeps(p, "pending") <==> p.status == Pending
    ensures FilterKeeps(p, "completed") <==> p.status == Completed
    ensures FilterKeeps(p, "failed") <==> p.status == Failed
  {
    assert UpperAscii("pending") == "PENDING";
    assert UpperAscii("completed") == "COMPLETED";
    assert UpperAscii("failed") == "FAILED";
  }

  /** No button selects refunded payments: they are listed only under "all". */
  lemma RefundedOnlyUnderAll(p: Payment, filter: string)
    requires p.status == Refunded && filter in FilterValues
    ensures FilterKeeps(p, filter) <==> filter == "all"
  {
    ButtonsSelectOneStatus(p);
  }

  /** `totalPaid`: the COMPLETED payments' amounts, filtered first and then
      summed. It agrees with the admin summary's single fold over all
      payments, and with non-negative amounts it is at most their sum. */
  function TotalPaid(payments: seq<Payment>): (r: int)
    ensures r == AdminPayments.TotalAmount(payments)
    ensures (forall i :: 0 <= i < |payments| ==> payments[i].amount >= 0) ==>
      0 <= r <= SumBy(payments, Amount)
  {
    AdminPayments.TotalAmountIsCompletedTotal(payments);
    assert (forall i :: 0 <= i < |payments| ==> payments[i].amount >= 0) ==>
      0 <= CompletedTotal(payments) <= SumBy(payments, Amount) by {
      if forall i :: 0 <= i < |payments| ==> payments[i].amount >= 0 {
        CompletedTotalBounds(payments);
      }
    }
    SumBy(Filter(payments, HasStatus(Completed)), Amount)
  }

  /** The pending card counts what the "pending" button lists. */
  function PendingCount(payments: seq<Payment>): (r: nat)
    ensures r == |FilteredPayments(payments, "pending")|
  {
    forall p ensures Kept("pending")(p) == HasStatus(Pending)(p) {
      ButtonsSelectOneStatus(p);
    }
    FilterSamePredicate(payments, Kept("pending"), HasStatus(Pending));
    Count(payments, HasStatus(Pending))
  }

  lemma {:induction false} FilterSamePredicate<T(!new)>(s: seq<T>, p: T -> bool, q: T -> bool)
    requires forall x :: p(x) == q(x)
    ensures Filter(s, p) == Filter(s, q)
    decreases |s|
  {
    if s != [] {
      FilterSamePredicate(s[1..], p, q);
    }
  }

  /** What the body of the page shows. */
  datatype Body = Spinner | ErrorCard(message: string) | Table(rows: seq<Payment>) | EmptyCard

  function PageBody(isLoading: bool, error: Option<string>, payments: seq<Payment>, filter: string): (r: Body)
    ensures r.Spinner? <==> isLoading
    ensures r.ErrorCard? <==> !isLoading && Truthy(error)
    ensures r.Table? <==> !isLoading && !Truthy(error) && |FilteredPayments(payments, filter)| > 0
    ensures r.Table? ==> r.rows == FilteredPayments(payments, filter)
  {
    if isLoading then Spinner
    else if Truthy(error) then ErrorCard(error.value)
    else
      var rows := FilteredPayments(payments, filter);
      if |rows| > 0 then Table(rows) else EmptyCard
  }

  /** The actions of a row: a details link to `/payments/<transactionId>`, and
      a receipt button for completed payments. */
  datatype RowAction = DetailsLink(path: string) | Receipt

  function RowActions(p: Payment): (r: seq<RowAction>)
    ensures DetailsLink("/payments/" + p.transactionId) in r
    ensures forall a :: a in r && a.DetailsLink? ==> a.path == "/payments/" + p.transactionId
    ensures Receipt in r <==> p.status == Completed
  {
    [DetailsLink("/payments/" + p.transactionId)] + (if p.status == Completed then [Receipt] else [])
  }
}
