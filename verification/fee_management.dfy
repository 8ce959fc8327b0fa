/** The admin fee-management page: the summary cards computed from the fee records,
    and the per-record status badge and receipt button. */
module FeeManagement {
  import opened Seqs

  /** One fee record. Amounts are whole rupees; `x || 0` leaves every number except 0
      unchanged and maps 0 to 0, so it is the identity here. */
  datatype Payment = Payment(studentName: string, rollNumber: string, amountPaid: int, totalFee: int,
                             date: string, txnId: string)

  datatype Summary = Summary(expected: int, collected: int, pending: int, defaulters: int)

  datatype Status = Pending | Partial | Paid

  function TotalFeeOf(p: Payment): int { p.totalFee }

  function AmountPaidOf(p: Payment): int { p.amountPaid }

  function OutstandingOf(p: Payment): int { p.totalFee - p.amountPaid }

  predicate IsDefaulter(p: Payment) { p.amountPaid < p.totalFee }

  /** `calculateSummary`: the two column sums, their difference, and the number of records
      paid below their total. */
  function CalculateSummary(data: seq<Payment>): (s: Summary)
    ensures s.pending == s.expected - s.collected
    ensures 0 <= s.defaulters <= |data|
    ensures s.pending == Sum(data, OutstandingOf)
    ensures s.defaulters == |Filter(data, IsDefaulter)|
  {
    var expected := Sum(data, TotalFeeOf);
    var collected := Sum(data, AmountPaidOf);
    SumDifference(data, TotalFeeOf, AmountPaidOf, OutstandingOf);
    Summary(expected, collected, expected - collected, Count(data, IsDefaulter))
  }

  /** A record appended to the list adds exactly its own amounts to the summary. */
  lemma SummaryOfAppended(data: seq<Payment>, p: Payment)
    ensures CalculateSummary(data + [p]).expected == CalculateSummary(data).expected + p.totalFee
    ensures CalculateSummary(data + [p]).collected == CalculateSummary(data).collected + p.amountPaid
    ensures CalculateSummary(data + [p]).defaulters
            == CalculateSummary(data).defaulters + (if IsDefaulter(p) then 1 else 0)
  {
    SumAppend(data, [p], TotalFeeOf);
    SumAppend(data, [p], AmountPaidOf);
    CountAppend(data, p);
  }

  lemma {:induction false} CountAppend(data: seq<Payment>, p: Payment)
    ensures Count(data + [p], IsDefaulter) == Count(data, IsDefaulter) + (if IsDefaulter(p) then 1 else 0)
    decreases |data|
  {
    if data == [] {
      assert data + [p] == [p];
    } else {
      assert (data + [p])[1..] == data[1..] + [p];
      CountAppend(data[1..], p);
    }
  }

  /** Money is outstanding only if somebody is a defaulter: with no defaulter the
      pending total is not positive. */
  lemma {:induction false} PendingNeedsDefaulter(data: seq<Payment>)
    ensures CalculateSummary(data).pending > 0 ==> CalculateSummary(data).defaulters > 0
    decreases |data|
  {
    if data != [] {
      PendingNeedsDefaulter(data[1..]);
    }
  }

  /** `getStatus`: nothing paid is "pending" (checked first, even for a zero total),
      a part paid is "partial", and otherwise "paid". */
  function GetStatus(p: Payment): (st: Status)
    ensures st == Pending <==> p.amountPaid == 0
    ensures st == Partial <==> p.amountPaid != 0 && p.amountPaid < p.totalFee
    ensures st == Paid <==> p.amountPaid != 0 && p.amountPaid >= p.totalFee
  {
    if p.amountPaid == 0 then Pending
    else if p.amountPaid < p.totalFee then Partial
    else Paid
  }

  /** The badge and the defaulter count agree: a paid record is never a defaulter, a partial one
      always is; a pending one is a defaulter exactly when its total is positive. */
  lemma StatusAgreesWithDefaulters(p: Payment)
    ensures GetStatus(p) == Paid ==> !IsDefaulter(p)
    ensures GetStatus(p) == Partial ==> IsDefaulter(p)
    ensures GetStatus(p) == Pending ==> (IsDefaulter(p) <==> p.totalFee > 0)
  {
  }

  /** The receipt ("PDF") button of a row. */
  predicate ShowsReceipt(p: Payment)
  {
    GetStatus(p) != Pending
  }

  /** A receipt is offered exactly for records with some amount paid. */
  lemma ReceiptIffSomethingPaid(p: Payment)
    ensures ShowsReceipt(p) <==> p.amountPaid != 0
  {
  }
}
