/** The card payment form (`PaymentForm`): the card-number and expiry-date
    input formatters, the section shown for each payment method, and the
    submit handler, whose awaited `createPayment` outcome is a parameter. */
module PaymentForm {
  import opened JsCore

  // ---------------------------------------------------------------------------
  // formatCardNumber: the digits, in groups of four joined by single spaces.

  function Concat(groups: seq<string>): string
    decreases |groups|
  {
    if groups == [] then "" else groups[0] + Concat(groups[1..])
  }

  function JoinWith(groups: seq<string>, sep: string): string
    decreases |groups|
  {
    if |groups| == 0 then ""
    else if |groups| == 1 then groups[0]
    else groups[0] + sep + JoinWith(groups[1..], sep)
  }

  /** `s.match(/.{1,4}/g)` on a non-empty string: consecutive pieces of four,
      the last holding the remaining one to four characters. */
  function Chunks(s: string): (r: seq<string>)
    requires s != []
    ensures |r| >= 1
    ensures forall i :: 0 <= i < |r| - 1 ==> |r[i]| == 4
    ensures 1 <= |r[|r| - 1]| <= 4
    ensures Concat(r) == s
    decreases |s|
  {
    if |s| <= 4 then [s]
    else
      var rest := Chunks(s[4..]);
      assert Concat([s[..4]] + rest) == s[..4] + Concat(rest) by {
        assert ([s[..4]] + rest)[1..] == rest;
      }
      [s[..4]] + rest
  }

  /** Pieces of a digit string are digit strings. */
  lemma {:induction false} ChunksAreDigits(s: string)
    requires s != [] && AllDigits(s)
    ensures forall i :: 0 <= i < |Chunks(s)| ==> AllDigits(Chunks(s)[i])
    decreases |s|
  {
    if |s| > 4 {
      ChunksAreDigits(s[4..]);
      var r := Chunks(s);
      forall i | 0 <= i < |r| ensures AllDigits(r[i]) {
        if i > 0 {
          assert r[i] == Chunks(s[4..])[i - 1];
        }
      }
    }
  }

  /** Dropping the spaces of the joined digit groups gives their digits back. */
  lemma {:induction false} DigitsOfJoin(groups: seq<string>)
    requires forall i :: 0 <= i < |groups| ==> AllDigits(groups[i])
    ensures DigitsOf(JoinWith(groups, " ")) == Concat(groups)
    decreases |groups|
  {
    if |groups| == 1 {
      DigitsOfDigits(groups[0]);
      assert Concat(groups) == groups[0] + Concat([]);
    } else if |groups| > 1 {
      DigitsOfJoin(groups[1..]);
      DigitsOfConcat(groups[0] + " ", JoinWith(groups[1..], " "));
      DigitsOfConcat(groups[0], " ");
      DigitsOfDigits(groups[0]);
      DigitsOfNone(" ");
    }
  }

  /** The joined groups hold digits and spaces only. */
  lemma {:induction false} JoinAlphabet(groups: seq<string>)
    requires forall i :: 0 <= i < |groups| ==> AllDigits(groups[i])
    ensures forall k :: 0 <= k < |JoinWith(groups, " ")| ==>
      IsDigit(JoinWith(groups, " ")[k]) || JoinWith(groups, " ")[k] == ' '
    decreases |groups|
  {
    if |groups| > 1 {
      JoinAlphabet(groups[1..]);
      var tail := JoinWith(groups[1..], " ");
      var r := groups[0] + " " + tail;
      forall k | 0 <= k < |r| ensures IsDigit(r[k]) || r[k] == ' ' {
        if k < |groups[0]| {
          assert r[k] == groups[0][k];
        } else if k > |groups[0]| {
          assert r[k] == tail[k - |groups[0]| - 1];
        }
      }
    }
  }

  function FormatCardNumber(value: string): (r: string)
    ensures DigitsOf(r) == DigitsOf(value)
    ensures forall k :: 0 <= k < |r| ==> IsDigit(r[k]) || r[k] == ' '
    ensures DigitsOf(value) == "" ==> r == ""
  {
    var cleaned := DigitsOf(value);
    if cleaned == "" then cleaned
    else
      ChunksAreDigits(cleaned);
      DigitsOfJoin(Chunks(cleaned));
      JoinAlphabet(Chunks(cleaned));
      JoinWith(Chunks(cleaned), " ")
  }

  /** Formatting a formatted card number changes nothing. */
  lemma FormatCardNumberIdempotent(value: string)
    ensures FormatCardNumber(FormatCardNumber(value)) == FormatCardNumber(value)
  {
  }

  /** The groups of four, joined: a space exactly at every fifth position,
      and one space fewer than there are groups. */
  lemma {:induction false} ChunkLayout(s: string)
    requires s != [] && AllDigits(s)
    ensures var j := JoinWith(Chunks(s), " ");
      && |j| == |s| + (|s| - 1) / 4
      && forall k :: 0 <= k < |j| ==> (j[k] == ' ' <==> k % 5 == 4)
    decreases |s|
  {
    if |s| > 4 {
      SliceDigits(s, 4, |s|);
      assert s[4..|s|] == s[4..];
      ChunkLayout(s[4..]);
      JoinChunksCons(s);
      SliceDigits(s, 0, 4);
      assert s[0..4] == s[..4];
      SpacedGroup(s[..4], JoinWith(Chunks(s[4..]), " "));
    }
  }

  /** Past the first four characters, the join is the first group, a space
      and the join of the remaining groups. */
  lemma JoinChunksCons(s: string)
    requires |s| > 4
    ensures JoinWith(Chunks(s), " ") == s[..4] + " " + JoinWith(Chunks(s[4..]), " ")
  {
    var rest := Chunks(s[4..]);
    assert Chunks(s) == [s[..4]] + rest;
    assert ([s[..4]] + rest)[1..] == rest;
  }

  /** A group of four digits and a space in front of a laid-out tail keep the
      space at every fifth position. */
  lemma SpacedGroup(a: string, tail: string)
    requires |a| == 4 && AllDigits(a)
    requires forall k :: 0 <= k < |tail| ==> (tail[k] == ' ' <==> k % 5 == 4)
    ensures forall k :: 0 <= k < |a + " " + tail| ==> ((a + " " + tail)[k] == ' ' <==> k % 5 == 4)
  {
    var j := a + " " + tail;
    forall k | 0 <= k < |j| ensures j[k] == ' ' <==> k % 5 == 4 {
      if k < 4 {
        assert j[k] == a[k];
      } else if k > 4 {
        assert j[k] == tail[k - 5];
      }
    }
  }

  /** The formatted number is laid out as groups of four digits: a space
      exactly at every fifth position and one space
      for every full group of four that more digits follow. Together with
      the digits being kept in order this fixes the output completely. */
  lemma FormatCardNumberLayout(value: string)
    ensures var c, r := DigitsOf(value), FormatCardNumber(value);
      && (c != "" ==> |r| == |c| + (|c| - 1) / 4)
      && forall k :: 0 <= k < |r| ==> (r[k] == ' ' <==> k % 5 == 4)
  {
    var c := DigitsOf(value);
    if c != "" {
      ChunkLayout(c);
    }
  }

  // ---------------------------------------------------------------------------
  // formatExpiryDate: MM, then "/" and at most two more digits.

  function FormatExpiryDate(value: string): (r: string)
    ensures var c := DigitsOf(value);
      && (|c| < 2 ==> r == c)
      && (|c| == 2 ==> r == c)
      && (|c| > 2 ==> r == c[..2] + "/" + c[2..Min(4, |c|)])
      && |r| <= 5
  {
    var cleaned := DigitsOf(value);
    if |cleaned| >= 2 then
      cleaned[..2] + (if |cleaned| > 2 then "/" + JsSlice(cleaned, 2, 4) else "")
    else cleaned
  }

  /** The digits that survive are the first four. */
  lemma ExpiryKeepsFirstFourDigits(value: string)
    ensures var c := DigitsOf(value);
      DigitsOf(FormatExpiryDate(value)) == c[..Min(4, |c|)]
  {
    var c := DigitsOf(value);
    var r := FormatExpiryDate(value);
    if |c| > 2 {
      var m := Min(4, |c|);
      var a, b := c[..2], c[2..m];
      SliceDigits(c, 0, 2);
      SliceDigits(c, 2, m);
      assert c[0..2] == a;
      assert r == a + "/" + b;
      DigitsOfConcat(a + "/", b);
      DigitsOfConcat(a, "/");
      DigitsOfNone("/");
      DigitsOfDigits(a);
      DigitsOfDigits(b);
      assert a + b == c[..m];
    } else {
      DigitsOfDigits(c);
      assert c[..|c|] == c;
    }
  }

  /** Formatting a formatted expiry date changes nothing. */
  lemma FormatExpiryDateIdempotent(value: string)
    ensures FormatExpiryDate(FormatExpiryDate(value)) == FormatExpiryDate(value)
  {
    ExpiryKeepsFirstFourDigits(value);
    var c := DigitsOf(value);
    var d := c[..Min(4, |c|)];
    assert d[..Min(4, |d|)] == d;
    if |c| > 2 {
      assert d[..2] == c[..2] && d[2..Min(4, |d|)] == c[2..Min(4, |c|)];
    }
  }

  // ---------------------------------------------------------------------------
  // The form

  /** What is shown under the method dropdown. */
  datatype Section = CardFields | BankTransferNotice | CashNotice | NoSection

  function SectionFor(paymentMethod: string): (r: Section)
    ensures r.CardFields? <==> paymentMethod == "card"
    ensures r.BankTransferNotice? <==> paymentMethod == "bank_transfer"
    ensures r.CashNotice? <==> paymentMethod == "cash"
  {
    if paymentMethod == "card" then CardFields
    else if paymentMethod == "bank_transfer" then BankTransferNotice
    else if paymentMethod == "cash" then CashNotice
    else NoSection
  }

  /** The `CreatePaymentData` sent to `createPayment`. */
  datatype PaymentRequest = PaymentRequest(amount: int, description: string, orderId: Option<string>)

  /** How the awaited `createPayment(...).unwrap()` ended: with the response's
      `paymentLink` (absent or empty in a malformed response), or by throwing
      an error with an optional `message`. */
  datatype Outcome = Resolved(paymentLink: Option<string>) | Threw(message: Option<string>)

  datatype Callback = OnSuccess(link: string) | OnError(error: string)

  const DefaultError := "Помилка обробки платежу"

  /** The callbacks `handleSubmit` makes. `successThrows` is Some(message)
      when `onSuccess` itself throws: the same `catch` then reports that
      error through `onError`. */
  function SubmitCallbacks(o: Outcome, successThrows: Option<Option<string>>): (r: seq<Callback>)
    ensures o.Threw? ==> r == [OnError(OrElse(o.message, DefaultError))]
    ensures o.Resolved? && !Truthy(o.paymentLink) ==> r == []
    ensures o.Resolved? && Truthy(o.paymentLink) ==>
      |r| >= 1 && r[0] == OnSuccess(o.paymentLink.value)
      && (|r| == 2 <==> successThrows.Some?)
    ensures forall c :: c in r && c.OnError? ==> c.error != ""
  {
    match o
    case Threw(message) => [OnError(OrElse(message, DefaultError))]
    case Resolved(link) =>
      if !Truthy(link) then []
      else if successThrows.None? then [OnSuccess(link.value)]
      else [OnSuccess(link.value), OnError(OrElse(successThrows.value, DefaultError))]
  }

  /** A successful payment with a link and a well-behaved `onSuccess` never
      reports an error; a failed one never reports success. */
  lemma SuccessAndErrorExclusive(o: Outcome)
    ensures forall c :: c in SubmitCallbacks(o, None) ==> (c.OnSuccess? <==> o.Resolved?)
  {
  }

  class PaymentFormState {
    const amount: int
    const description: string
    const orderId: Option<string>
    var isLoading: bool
    var cardNumber: string
    var expiryDate: string
    var cvv: string
    var cardHolder: string
    var paymentMethod: string
    /** The payment requests dispatched, in order. */
    var requests: seq<PaymentRequest>

    constructor (amount: int, description: string, orderId: Option<string>)
      ensures this.amount == amount && this.description == description && this.orderId == orderId
      ensures !isLoading && cardNumber == "" && expiryDate == "" && cvv == "" && cardHolder == ""
      ensures paymentMethod == "card" && requests == []
    {
      this.amount, this.description, this.orderId := amount, description, orderId;
      isLoading, cardNumber, expiryDate, cvv, cardHolder := false, "", "", "", "";
      paymentMethod, requests := "card", [];
    }

    method ChangeCardNumber(value: string)
      modifies this
      ensures cardNumber == FormatCardNumber(value)
      ensures expiryDate == old(expiryDate) && cvv == old(cvv) && cardHolder == old(cardHolder)
      ensures paymentMethod == old(paymentMethod) && isLoading == old(isLoading) && requests == old(requests)
    {
      cardNumber := FormatCardNumber(value);
    }

    method ChangeExpiryDate(value: string)
      modifies this
      ensures expiryDate == FormatExpiryDate(value)
      ensures cardNumber == old(cardNumber) && cvv == old(cvv) && cardHolder == old(cardHolder)
      ensures paymentMethod == old(paymentMethod) && isLoading == old(isLoading) && requests == old(requests)
    {
      expiryDate := FormatExpiryDate(value);
    }

    method ChangePaymentMethod(value: string)
      modifies this
      ensures paymentMethod == value
      ensures cardNumber == old(cardNumber) && expiryDate == old(expiryDate) && cvv == old(cvv)
      ensures cardHolder == old(cardHolder) && isLoading == old(isLoading) && requests == old(requests)
    {
      paymentMethod := value;
    }

    /** `handleSubmit`: only the amount, description and order id are sent,
        whatever was typed into the card fields; the loading flag is set for
        the duration of the call and cleared whatever the outcome. */
    method Submit(o: Outcome, successThrows: Option<Option<string>>) returns (calls: seq<Callback>)
      modifies this
      ensures requests == old(requests) + [PaymentRequest(amount, description, orderId)]
      ensures calls == SubmitCallbacks(o, successThrows)
      ensures !isLoading
      ensures cardNumber == old(cardNumber) && expiryDate == old(expiryDate) && cvv == old(cvv)
      ensures cardHolder == old(cardHolder) && paymentMethod == old(paymentMethod)
    {
      isLoading := true;
      requests := requests + [PaymentRequest(amount, description, orderId)];
      calls := [];
      match o {
        case Threw(message) =>
          calls := calls + [OnError(OrElse(message, DefaultError))];
        case Resolved(link) =>
          if Truthy(link) {
            calls := calls + [OnSuccess(link.value)];
            if successThrows.Some? {
              calls := calls + [OnError(OrElse(successThrows.value, DefaultError))];
            }
          }
      }
      isLoading := false;
    }
  }
}
