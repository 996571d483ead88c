/**
 * The payments table: the per-status totals shown above it and the search box filter.
 */
module PaymentsTable {
  import opened Wrappers
  import opened Text
  import opened Lists

  /**
   * The fields of a loaded payment the table reads; `None` is a field the record does not have.
   * Amounts are taken as the non-negative numbers they are meant to be.
   */
  datatype PaymentRow = PaymentRow(studentName: Option<string>, modality: Option<string>,
                                   status: Option<string>, amount: nat)

  const Paid := "Pagado"
  const Pending := "Pendiente"
  const Overdue := "Vencido"

  function Amount(p: PaymentRow): nat {
    p.amount
  }

  predicate HasStatus(p: PaymentRow, status: string) {
    p.status == Some(status)
  }

  /** The sum of the amounts of the payments whose status is exactly `status`. */
  function TotalWith(payments: seq<PaymentRow>, status: string): nat {
    SumOf(Filter(p => HasStatus(p, status), payments), Amount)
  }

  function TotalPaid(payments: seq<PaymentRow>): nat {
    TotalWith(payments, Paid)
  }

  function TotalPending(payments: seq<PaymentRow>): nat {
    TotalWith(payments, Pending)
  }

  function TotalOverdue(payments: seq<PaymentRow>): nat {
    TotalWith(payments, Overdue)
  }

  /** `totalIncome`: what was paid plus what is still pending. */
  function TotalIncome(payments: seq<PaymentRow>): nat {
    TotalPaid(payments) + TotalPending(payments)
  }

  /** The payments whose status is none of the three the totals look at. */
  predicate OtherStatus(p: PaymentRow) {
    !HasStatus(p, Paid) && !HasStatus(p, Pending) && !HasStatus(p, Overdue)
  }

  /** With no payments loaded every figure is 0. */
  lemma TotalsOfNoPayments()
    ensures TotalPaid([]) == 0 && TotalPending([]) == 0 && TotalOverdue([]) == 0 && TotalIncome([]) == 0
  {
  }

  /** A payment added at the end counts once, in the total of its own status, and in no other. */
  lemma TotalAppend(payments: seq<PaymentRow>, p: PaymentRow, status: string)
    ensures TotalWith(payments + [p], status)
            == TotalWith(payments, status) + (if HasStatus(p, status) then p.amount else 0)
  {
    var keep := q => HasStatus(q, status);
    FilterConcat(keep, payments, [p]);
    assert Filter(keep, [p]) == if HasStatus(p, status) then [p] else [];
    SumConcat(Filter(keep, payments), Filter(keep, [p]), Amount);
  }

  /**
   * The three totals and the amounts under any other status split the sum of all amounts: each
   * payment counts in exactly one of the four.
   */
  lemma {:induction false} StatusPartition(payments: seq<PaymentRow>)
    ensures TotalPaid(payments) + TotalPending(payments) + TotalOverdue(payments)
            + SumOf(Filter(OtherStatus, payments), Amount)
            == SumOf(payments, Amount)
    decreases |payments|
  {
    if |payments| > 0 {
      var rest := payments[1..];
      StatusPartition(rest);
      SumFilterStep(p => HasStatus(p, Paid), payments, Amount);
      SumFilterStep(p => HasStatus(p, Pending), payments, Amount);
      SumFilterStep(p => HasStatus(p, Overdue), payments, Amount);
      SumFilterStep(OtherStatus, payments, Amount);
    }
  }

  /** Hence the totals never exceed the sum of all amounts, and overdue money is never income. */
  lemma TotalsBounded(payments: seq<PaymentRow>)
    ensures TotalPaid(payments) + TotalPending(payments) + TotalOverdue(payments) <= SumOf(payments, Amount)
    ensures TotalIncome(payments) + TotalOverdue(payments) <= SumOf(payments, Amount)
  {
    StatusPartition(payments);
  }

  /** Payments under any other status leave every total as it is. */
  lemma OtherStatusesIgnored(payments: seq<PaymentRow>, extra: seq<PaymentRow>, status: string)
    requires status == Paid || status == Pending || status == Overdue
    requires forall k | 0 <= k < |extra| :: OtherStatus(extra[k])
    ensures TotalWith(payments + extra, status) == TotalWith(payments, status)
  {
    var keep := q => HasStatus(q, status);
    FilterConcat(keep, payments, extra);
    FilterNone(keep, extra);
    assert Filter(keep, payments) + [] == Filter(keep, payments);
  }

  lemma {:induction false} FilterNone(keep: PaymentRow -> bool, xs: seq<PaymentRow>)
    requires forall k | 0 <= k < |xs| :: !keep(xs[k])
    ensures Filter(keep, xs) == []
    decreases |xs|
  {
    if |xs| > 0 {
      FilterNone(keep, xs[1..]);
    }
  }

  // ---------------------------------------------------------------- the search filter

  /**
   * A payment is listed when the search term occurs, compared in lower case, in its student name,
   * its modality or its status. An absent field never matches.
   */
  predicate Matches(p: PaymentRow, term: string) {
    || (p.studentName.Some? && Contains(Lower(p.studentName.value), Lower(term)))
    || (p.modality.Some? && Contains(Lower(p.modality.value), Lower(term)))
    || (p.status.Some? && Contains(Lower(p.status.value), Lower(term)))
  }

  /** `filteredPayments`. */
  function FilterPayments(payments: seq<PaymentRow>, term: string): seq<PaymentRow> {
    Filter(p => Matches(p, term), payments)
  }

  /** The table lists exactly the matching payments, in their loaded order and as often as they occur. */
  lemma FilterPaymentsSpec(payments: seq<PaymentRow>, term: string)
    ensures IsSubsequence(FilterPayments(payments, term), payments)
    ensures forall p :: p in FilterPayments(payments, term) <==> p in payments && Matches(p, term)
    ensures forall p :: multiset(FilterPayments(payments, term))[p]
                        == if Matches(p, term) then multiset(payments)[p] else 0
  {
    var keep := p => Matches(p, term);
    FilterSpec(keep, payments);
    forall p ensures p in FilterPayments(payments, term) <==> p in payments && Matches(p, term) {
      FilterMember(keep, payments, p);
    }
  }

  /** The search does not depend on the case of the term. */
  lemma SearchIgnoresCase(payments: seq<PaymentRow>, term: string)
    ensures FilterPayments(payments, term) == FilterPayments(payments, Lower(term))
  {
    assert Lower(Lower(term)) == Lower(term);
    SameFilter(payments, term, Lower(term));
  }

  lemma {:induction false} SameFilter(payments: seq<PaymentRow>, t: string, u: string)
    requires Lower(t) == Lower(u)
    ensures FilterPayments(payments, t) == FilterPayments(payments, u)
    decreases |payments|
  {
    if |payments| > 0 {
      SameFilter(payments[1..], t, u);
    }
  }
}
