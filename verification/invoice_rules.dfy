/** The invoice status machine: what cancel, the two cron jobs, a partial payment and the
    reconciler may do to an invoice, and what none of them can undo. */
module InvoiceRules {
  import opened PaymentTables

  datatype PartialError = NotFound | PartialsDisabled | AmountNotPositive | ExceedsRemaining
  datatype PartialResult = Applied(invoice: Invoice) | Rejected(error: PartialError)

  /** status IN ('pending','partial') */
  predicate Open(v: Invoice) { v.status == Pending || v.status == Partial }

  /** The row a create inserts. */
  predicate Fresh(v: Invoice)
  {
    v.status == Pending && v.gross > 0 && v.paid == 0 && v.remaining == v.gross
  }

  function CancelRow(v: Invoice, merchant: nat): Invoice
  {
    if v.merchant == merchant && Open(v) then v.(status := Cancelled) else v
  }

  function ExpireRow(v: Invoice, now: int): Invoice
  {
    if Open(v) && v.expiresAt < now then v.(status := Expired) else v
  }

  /** ttl: unpaid_invoice_ttl_minutes by merchant, in the clock's unit. */
  function CancelUnpaidRow(v: Invoice, ttl: map<nat, int>, now: int): Invoice
  {
    if Open(v) && v.merchant in ttl && v.createdAt + ttl[v.merchant] < now
    then v.(status := Cancelled) else v
  }

  /** applyPartialPayment on the locked row. toUnits refuses an amount below one unit, and
      would refuse a remaining balance of zero. */
  function ApplyPartial(v: Invoice, amount: Units): PartialResult
  {
    if !Open(v) then Rejected(NotFound)
    else if !v.partialEnabled then Rejected(PartialsDisabled)
    else if amount <= 0 || v.remaining <= 0 then Rejected(AmountNotPositive)
    else if v.remaining - amount < 0 then Rejected(ExceedsRemaining)
    else Applied(v.(paid := v.paid + amount, remaining := v.remaining - amount,
                    status := if v.remaining - amount == 0 then Paid else Partial))
  }

  /** The balance of an invoice agrees with its status. */
  predicate MoneyOk(v: Invoice)
  {
    && 0 < v.gross && 0 <= v.remaining && v.paid + v.remaining == v.gross
    && (v.status == Pending ==> v.remaining == v.gross)
    && (v.status == Partial ==> 0 < v.remaining < v.gross)
    && (v.remaining == 0 ==> v.status == Paid)
  }

  predicate SameTerms(a: Invoice, b: Invoice)
  {
    && a.merchant == b.merchant && a.gross == b.gross && a.fee == b.fee && a.net == b.net
    && a.currency == b.currency && a.grossEquiv == b.grossEquiv && a.muxedId == b.muxedId && a.memo == b.memo
  }

  /** What may happen to one invoice over time: the terms are fixed, nothing becomes pending
      again, and paid, expired and cancelled are final. */
  predicate Evolves(a: Invoice, b: Invoice)
  {
    && SameTerms(a, b)
    && a.paid <= b.paid
    && (b.status == Pending ==> a.status == Pending)
    && (!Open(a) ==> b.status == a.status && b.paid == a.paid && b.remaining == a.remaining)
  }

  ghost predicate TableEvolves(a: seq<Invoice>, b: seq<Invoice>)
  {
    && |a| <= |b|
    && forall i :: 0 <= i < |a| ==> Evolves(a[i], b[i])
  }

  ghost predicate TableMoneyOk(invoices: seq<Invoice>)
  {
    forall i :: 0 <= i < |invoices| ==> MoneyOk(invoices[i])
  }

  lemma PartialKeepsMoney(v: Invoice, amount: Units)
    requires MoneyOk(v)
    ensures ApplyPartial(v, amount).Applied? <==>
              v.status in {Pending, Partial} && v.partialEnabled && 1 <= amount <= v.remaining
    ensures ApplyPartial(v, amount).Applied? ==>
              var after := ApplyPartial(v, amount).invoice;
              MoneyOk(after) && Evolves(v, after) && after.paid == v.paid + amount
              && after.status == if amount == v.remaining then Paid else Partial
  {
  }

  function SumUnits(amounts: seq<Units>): Units
  {
    if amounts == [] then 0 else SumUnits(amounts[..|amounts| - 1]) + amounts[|amounts| - 1]
  }

  /** A list of partial payments applied in order, each to what the one before left. */
  function ApplyAll(v: Invoice, amounts: seq<Units>): PartialResult
  {
    if amounts == [] then Applied(v)
    else
      match ApplyAll(v, amounts[..|amounts| - 1])
      case Rejected(e) => Rejected(e)
      case Applied(w) => ApplyPartial(w, amounts[|amounts| - 1])
  }

  /** A non-empty list of partial payments is accepted in full exactly when every amount is
      positive and they sum to at most what remains; the invoice is then paid exactly when they
      sum to all of it. */
  lemma {:induction false} PartialsSettleExactly(v: Invoice, amounts: seq<Units>)
    requires MoneyOk(v) && Open(v) && v.partialEnabled && amounts != []
    ensures ApplyAll(v, amounts).Applied? <==>
              (forall i :: 0 <= i < |amounts| ==> amounts[i] > 0) && SumUnits(amounts) <= v.remaining
    ensures ApplyAll(v, amounts).Applied? ==>
              var w := ApplyAll(v, amounts).invoice;
              && MoneyOk(w) && Evolves(v, w) && w.partialEnabled
              && w.remaining == v.remaining - SumUnits(amounts)
              && w.status == if SumUnits(amounts) == v.remaining then Paid else Partial
  {
    var n := |amounts| - 1;
    var front := amounts[..n];
    assert forall i | 0 <= i < n :: front[i] == amounts[i];
    if n == 0 {
      assert front == [];
      PartialKeepsMoney(v, amounts[0]);
    } else {
      PartialsSettleExactly(v, front);
      if ApplyAll(v, front).Applied? {
        PartialKeepsMoney(ApplyAll(v, front).invoice, amounts[n]);
      }
    }
  }
}
