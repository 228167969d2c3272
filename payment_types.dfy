/** The payment record as the client receives it from the server, restricted
    to the fields the modelled logic reads. */
module PaymentTypes {
  import opened JsCore

  datatype PaymentStatus = Pending | Completed | Failed | Refunded

  /** The status as the server writes it. */
  function StatusName(s: PaymentStatus): (r: string)
    ensures r == UpperAscii(r)
  {
    match s
    case Pending => "PENDING"
    case Completed => "COMPLETED"
    case Failed => "FAILED"
    case Refunded => "REFUNDED"
  }

  /** Amounts are whole units of `currency` (kopecks are not used). */
  datatype Payment = Payment(
    id: int,
    userId: int,
    amount: int,
    currency: string,
    status: PaymentStatus,
    transactionId: string,
    orderId: Option<string>,
    paymentMethod: Option<string>)

  function HasStatus(s: PaymentStatus): Payment -> bool {
    (p: Payment) => p.status == s
  }

  function Amount(p: Payment): int {
    p.amount
  }

  /** The sum of the amounts of the COMPLETED payments, in list order. */
  function CompletedTotal(payments: seq<Payment>): int {
    SumBy(Filter(payments, HasStatus(Completed)), Amount)
  }

  lemma {:induction false} CompletedTotalConcat(a: seq<Payment>, b: seq<Payment>)
    ensures CompletedTotal(a + b) == CompletedTotal(a) + CompletedTotal(b)
  {
    FilterConcat(a, b, HasStatus(Completed));
    SumByConcat(Filter(a, HasStatus(Completed)), Filter(b, HasStatus(Completed)), Amount);
  }

  lemma {:induction false} SumByConcat<T>(a: seq<T>, b: seq<T>, f: T -> int)
    ensures SumBy(a + b, f) == SumBy(a, f) + SumBy(b, f)
    decreases |a|
  {
    if a == [] {
      assert a + b == b;
    } else {
      assert (a + b)[0] == a[0] && (a + b)[1..] == a[1..] + b;
      SumByConcat(a[1..], b, f);
    }
  }

  /** With non-negative amounts the completed total is non-negative and at
      most the sum of all amounts. */
  lemma {:induction false} CompletedTotalBounds(payments: seq<Payment>)
    requires forall i :: 0 <= i < |payments| ==> payments[i].amount >= 0
    ensures 0 <= CompletedTotal(payments) <= SumBy(payments, Amount)
    decreases |payments|
  {
    if payments != [] {
      CompletedTotalBounds(payments[1..]);
      assert payments == [payments[0]] + payments[1..];
      CompletedTotalConcat([payments[0]], payments[1..]);
      assert Filter([payments[0]], HasStatus(Completed)) ==
        (if payments[0].status == Completed then [payments[0]] else []);
    }
  }

  /** Every payment has exactly one of the four statuses. */
  lemma {:induction false} StatusCountsSum(payments: seq<Payment>)
    ensures Count(payments, HasStatus(Completed)) + Count(payments, HasStatus(Pending))
      + Count(payments, HasStatus(Failed)) + Count(payments, HasStatus(Refunded)) == |payments|
    decreases |payments|
  {
    if payments != [] {
      StatusCountsSum(payments[1..]);
    }
  }
}
