/** The student's fee page: the fee table with its totals, the per-row "Pay Now" button that
    opens the payment modal for that fee, the simulated payment, and the success screen. */
module StudentFees {
  import opened Seqs
  import opened Strings

  /** One row of the fee table; `due` is the due-date text ("Paid" once settled). */
  datatype FeeRow = FeeRow(category: string, total: int, paid: int, due: string)

  const FeeDetails: seq<FeeRow> := [
    FeeRow("Tuition Fee", 48000, 48000, "Paid"),
    FeeRow("Exam Fee", 3000, 3000, "Paid"),
    FeeRow("Transport Fee", 8000, 0, "Mar 1, 2025"),
    FeeRow("Lab Fee", 6000, 6000, "Paid"),
    FeeRow("Other Charges", 2000, 0, "Mar 15, 2025")
  ]

  function TotalOf(f: FeeRow): int { f.total }

  function PaidOf(f: FeeRow): int { f.paid }

  /** A row's pending amount, `f.total - f.paid`. */
  function RowPending(f: FeeRow): int { f.total - f.paid }

  function TotalFee(rows: seq<FeeRow>): int { Sum(rows, TotalOf) }

  function PaidFee(rows: seq<FeeRow>): int { Sum(rows, PaidOf) }

  /** `pendingFee = totalFee - paidFee`: the same as adding up the rows' pending amounts. */
  function PendingFee(rows: seq<FeeRow>): (r: int)
    ensures r == Sum(rows, RowPending)
  {
    SumDifference(rows, TotalOf, PaidOf, RowPending);
    TotalFee(rows) - PaidFee(rows)
  }

  /** The page's cards: ₹67,000 in total, ₹57,000 paid, ₹10,000 pending, and the pending
      amount is exactly what the two unpaid rows owe. */
  lemma PageTotals()
    ensures TotalFee(FeeDetails) == 67000 && PaidFee(FeeDetails) == 57000
    ensures PendingFee(FeeDetails) == 10000 == RowPending(FeeDetails[2]) + RowPending(FeeDetails[4])
  {
    assert FeeDetails == [FeeDetails[0], FeeDetails[1], FeeDetails[2], FeeDetails[3], FeeDetails[4]];
  }

  /** The "Pending" cell of a row: the amount while something is owed, else a "Cleared" badge. */
  datatype PendingCell = Cleared | Amount(rupees: int)

  function CellFor(f: FeeRow): PendingCell
  {
    if RowPending(f) > 0 then Amount(RowPending(f)) else Cleared
  }

  /** The "Pay Now" button is rendered for `pending > 0`. */
  predicate ShowsPayNow(f: FeeRow)
  {
    RowPending(f) > 0
  }

  /** A row offers "Pay Now" exactly when its cell shows an amount, and that amount is positive. */
  lemma PayNowIffAmountShown(f: FeeRow)
    ensures ShowsPayNow(f) <==> CellFor(f).Amount?
    ensures CellFor(f).Amount? ==> CellFor(f).rupees == RowPending(f) > 0
  {
  }

  /** `s.replace(" ", "")`: a string pattern replaces only its first occurrence. */
  function RemoveFirstSpace(s: string): string
    decreases |s|
  {
    if s == [] then []
    else if s[0] == ' ' then s[1..]
    else [s[0]] + RemoveFirstSpace(s[1..])
  }

  /** Removing the first space, at position `k`, keeps what stands before and after it. */
  lemma {:induction false} RemoveFirstSpaceAt(s: string, k: int)
    requires 0 <= k < |s| && s[k] == ' '
    requires forall j :: 0 <= j < k ==> s[j] != ' '
    ensures RemoveFirstSpace(s) == s[..k] + s[k + 1..]
    decreases k
  {
    if k > 0 {
      RemoveFirstSpaceAt(s[1..], k - 1);
      assert s[..k] == [s[0]] + s[1..][..k - 1];
      assert s[k + 1..] == s[1..][k..];
    }
  }

  /** A string without a space is left alone. */
  lemma {:induction false} RemoveFirstSpaceNoSpace(s: string)
    requires ' ' !in s
    ensures RemoveFirstSpace(s) == s
    decreases |s|
  {
    if s != [] {
      assert s[0] in s;
      assert forall c :: c in s[1..] ==> c in s;
      RemoveFirstSpaceNoSpace(s[1..]);
    }
  }

  /** The key "Pay Now" records for a row: `category.toLowerCase().replace(" ", "")`. */
  function FeeKey(category: string): string
  {
    RemoveFirstSpace(ToLower(category))
  }

  /** The transport row's key keeps the word "fee": "transportfee". */
  lemma TransportKey()
    ensures FeeKey(FeeDetails[2].category) == "transportfee"
  {
    LowerTransport();
    SlugTransport();
  }

  lemma LowerTransport()
    ensures ToLower("Transport Fee") == "transport fee"
  {
    var lower := ToLower("Transport Fee");
    forall k | 0 <= k < 13 ensures lower[k] == "transport fee"[k] {
      assert lower[k] == LowerChar("Transport Fee"[k]);
    }
  }

  lemma SlugTransport()
    ensures RemoveFirstSpace("transport fee") == "transportfee"
  {
    RemoveFirstSpaceAt("transport fee", 9);
    assert "transport fee"[..9] == "transport";
    assert "transport fee"[10..] == "fee";
  }

  /** A category with a space loses exactly one character, its first space, in its key. */
  lemma FeeKeyLength(category: string, k: int)
    requires 0 <= k < |category| && category[k] == ' '
    requires forall j :: 0 <= j < k ==> category[j] != ' '
    ensures |FeeKey(category)| == |category| - 1
  {
    RemoveFirstSpaceAt(ToLower(category), k);
  }

  /** The amount on the success screen as the page computes it: ₹8,000 for the key
      "transport", ₹2,000 for any other key. */
  function SuccessAmountAsWritten(selectedFee: string): int
  {
    if selectedFee == "transport" then 8000 else 2000
  }

  /** No row produces the key "transport", so paying the transport fee shows ₹2,000 although
      ₹8,000 is pending on it. */
  lemma TransportPaymentShowsWrongAmount()
    ensures forall i :: 0 <= i < |FeeDetails| ==> FeeKey(FeeDetails[i].category) != "transport"
    ensures SuccessAmountAsWritten(FeeKey(FeeDetails[2].category)) == 2000
    ensures RowPending(FeeDetails[2]) == 8000
  {
    forall i | 0 <= i < |FeeDetails| ensures FeeKey(FeeDetails[i].category) != "transport" {
      var c := FeeDetails[i].category;
      var blank := if i == 0 then 7 else if i == 1 then 4 else if i == 2 then 9 else if i == 3 then 3 else 5;
      FeeKeyLength(c, blank);
    }
  }

  /** The amount on the success screen, compared against the key the transport row
      actually produces. */
  function SuccessAmount(selectedFee: string): int
  {
    if selectedFee == "transportfee" then 8000 else 2000
  }

  /** The "Other Charges" row's key is "othercharges". */
  lemma OtherKey()
    ensures FeeKey(FeeDetails[4].category) == "othercharges"
  {
    LowerOther();
    SlugOther();
  }

  lemma LowerOther()
    ensures ToLower("Other Charges") == "other charges"
  {
    var lower := ToLower("Other Charges");
    forall k | 0 <= k < 13 ensures lower[k] == "other charges"[k] {
      assert lower[k] == LowerChar("Other Charges"[k]);
    }
  }

  lemma SlugOther()
    ensures RemoveFirstSpace("other charges") == "othercharges"
  {
    RemoveFirstSpaceAt("other charges", 5);
    assert "other charges"[..5] == "other";
    assert "other charges"[6..] == "charges";
  }

  /** The keys "Pay Now" can record. */
  const PayableKeys: set<string> := {"transportfee", "othercharges"}

  /** A row offers "Pay Now" exactly when its key is one of `PayableKeys`. */
  lemma PayableKeysAreRowKeys()
    ensures forall i :: 0 <= i < |FeeDetails| ==>
              (ShowsPayNow(FeeDetails[i]) <==> FeeKey(FeeDetails[i].category) in PayableKeys)
  {
    forall i | 0 <= i < |FeeDetails|
      ensures ShowsPayNow(FeeDetails[i]) <==> FeeKey(FeeDetails[i].category) in PayableKeys
    {
      if i == 2 {
        TransportKey();
      } else if i == 4 {
        OtherKey();
      } else {
        var blank := if i == 0 then 7 else if i == 1 then 4 else 3;
        FeeKeyLength(FeeDetails[i].category, blank);
      }
    }
  }

  /** With the matching key, the success screen shows exactly the pending amount of the
      row whose "Pay Now" was pressed. */
  lemma SuccessAmountIsRowPending(i: int)
    requires 0 <= i < |FeeDetails| && ShowsPayNow(FeeDetails[i])
    ensures SuccessAmount(FeeKey(FeeDetails[i].category)) == RowPending(FeeDetails[i])
  {
    assert i == 2 || i == 4;
    if i == 2 {
      TransportKey();
    } else {
      OtherKey();
    }
  }

  datatype PaymentView = Dashboard | Pay

  datatype PaymentMethod = Upi | Card | NetBanking

  class FeesPage {
    var view: PaymentView
    var paymentMethod: PaymentMethod
    var upiId: string
    /** The payment is being processed (the submit button is disabled). */
    var processing: bool
    /** The success screen replaces the page. */
    var success: bool
    /** The key of the fee whose "Pay Now" was pressed last ("" before any). */
    var selectedFee: string

    /** Processing and success never show together, the modal is only open for a chosen
        fee, a payment is only under way or completed for a chosen fee, and a chosen fee is
        always one that offered "Pay Now". */
    ghost predicate Valid()
      reads this
    {
      (processing ==> !success)
      && (view == Pay || processing || success ==> selectedFee != "")
      && (selectedFee == "" || selectedFee in PayableKeys)
    }

    constructor ()
      ensures Valid()
      ensures view == Dashboard && paymentMethod == Upi && upiId == ""
      ensures !processing && !success && selectedFee == ""
    {
      view := Dashboard;
      paymentMethod := Upi;
      upiId := "";
      processing := false;
      success := false;
      selectedFee := "";
    }

    /** "Pay Now" on row `i` of the dashboard: records that row's key and opens the modal.
        The button exists only on rows with something pending, and only on the dashboard. */
    method PayNow(i: int)
      requires Valid()
      requires 0 <= i < |FeeDetails|
      modifies this
      ensures Valid()
      ensures old(view) == Dashboard && !old(success) && ShowsPayNow(FeeDetails[i]) ==>
                view == Pay && selectedFee == FeeKey(FeeDetails[i].category)
      ensures !(old(view) == Dashboard && !old(success) && ShowsPayNow(FeeDetails[i])) ==>
                view == old(view) && selectedFee == old(selectedFee)
      ensures paymentMethod == old(paymentMethod) && upiId == old(upiId)
      ensures processing == old(processing) && success == old(success)
    {
      if view == Dashboard && !success && ShowsPayNow(FeeDetails[i]) {
        PayableKeysAreRowKeys();
        selectedFee := FeeKey(FeeDetails[i].category);
        view := Pay;
      }
    }

    /** The modal's close button; a payment already under way still completes. */
    method CloseModal()
      requires Valid()
      modifies this
      ensures Valid()
      ensures view == (if old(view) == Pay && !old(success) then Dashboard else old(view))
      ensures paymentMethod == old(paymentMethod) && upiId == old(upiId)
      ensures processing == old(processing) && success == old(success) && selectedFee == old(selectedFee)
    {
      if view == Pay && !success {
        view := Dashboard;
      }
    }

    method ChoosePaymentMethod(m: PaymentMethod)
      requires Valid()
      modifies this
      ensures Valid()
      ensures paymentMethod == (if old(view) == Pay && !old(success) then m else old(paymentMethod))
      ensures view == old(view) && upiId == old(upiId)
      ensures processing == old(processing) && success == old(success) && selectedFee == old(selectedFee)
    {
      if view == Pay && !success {
        paymentMethod := m;
      }
    }

    /** The UPI id input, shown in the modal while UPI is chosen. */
    method SetUpiId(text: string)
      requires Valid()
      modifies this
      ensures Valid()
      ensures upiId == (if old(view) == Pay && !old(success) && old(paymentMethod) == Upi then text else old(upiId))
      ensures view == old(view) && paymentMethod == old(paymentMethod)
      ensures processing == old(processing) && success == old(success) && selectedFee == old(selectedFee)
    {
      if view == Pay && !success && paymentMethod == Upi {
        upiId := text;
      }
    }

    /** `handlePay`: submitting the modal's form starts processing (the submit button is
        disabled while it lasts); nothing about the payment details is checked. */
    method HandlePay()
      requires Valid()
      modifies this
      ensures Valid()
      ensures processing == (old(processing) || (old(view) == Pay && !old(success)))
      ensures view == old(view) && paymentMethod == old(paymentMethod) && upiId == old(upiId)
      ensures success == old(success) && selectedFee == old(selectedFee)
    {
      if view == Pay && !success && !processing {
        processing := true;
      }
    }

    /** The 2.5-second timer started by `handlePay`: processing ends in success, for the fee
        that was chosen. The submit button is disabled while processing, so at most one timer
        is pending, exactly while `processing` holds; without it nothing fires. */
    method PaymentTimerFired()
      requires Valid()
      modifies this
      ensures Valid()
      ensures old(processing) ==> !processing && success && selectedFee != ""
      ensures !old(processing) ==> processing == old(processing) && success == old(success)
      ensures view == old(view) && paymentMethod == old(paymentMethod) && upiId == old(upiId)
      ensures selectedFee == old(selectedFee)
    {
      if processing {
        processing := false;
        success := true;
      }
    }

    /** The corrected amount of the success screen (`SuccessAmount`, not the
        `SuccessAmountAsWritten` of the page): once a fee is chosen, the pending amount of
        every row with that key. */
    function ShownAmount(): (a: int)
      requires selectedFee == "" || selectedFee in PayableKeys
      reads this
      ensures selectedFee != "" ==>
                forall i :: 0 <= i < |FeeDetails| && FeeKey(FeeDetails[i].category) == selectedFee ==>
                  a == RowPending(FeeDetails[i])
    {
      PayableKeysAreRowKeys();
      forall i | 0 <= i < |FeeDetails| && FeeKey(FeeDetails[i].category) == selectedFee && selectedFee != ""
        ensures SuccessAmount(selectedFee) == RowPending(FeeDetails[i])
      {
        SuccessAmountIsRowPending(i);
      }
      SuccessAmount(selectedFee)
    }

    /** The success screen's Back button. */
    method BackFromSuccess()
      requires Valid()
      modifies this
      ensures Valid()
      ensures old(success) ==> !success && view == Dashboard
      ensures !old(success) ==> success == old(success) && view == old(view)
      ensures processing == old(processing) && paymentMethod == old(paymentMethod)
      ensures upiId == old(upiId) && selectedFee == old(selectedFee)
    {
      if success {
        success := false;
        view := Dashboard;
      }
    }
  }
}
