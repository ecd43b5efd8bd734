/** The rows and tables of the payment core: what Horizon reports, the Postgres tables the
    reconciler and the invoice service share, and the atomic statements run against them.

    A table is a sequence of rows and a row's primary key is its position (rows are never
    deleted). Money is an integer number of 10^-7 units. A Horizon paging token stands for its
    place in Horizon's order. */
module PaymentTables {

  import opened Options

  type Token = nat
  type Units = int

  datatype Screening = Clear | Review | Blocked

  /** The ofac_result column: the screening outcome, or the marker of an amount mismatch. */
  datatype Verdict = Screened(result: Screening) | AmountMismatch

  /** One line of the Horizon stream; amount is None when the decimal does not parse. */
  datatype Payment = Payment(
    token: Token, from: string, to: string, amount: Option<Units>,
    assetType: Option<string>, assetCode: Option<string>, assetIssuer: Option<string>,
    memo: Option<string>)

  datatype Status = Pending | Partial | Paid | Expired | Cancelled

  datatype Invoice = Invoice(
    merchant: nat, gross: Units, fee: Units, net: Units, currency: string, grossEquiv: Units,
    muxedId: int, memo: Option<string>, partialEnabled: bool,
    paid: Units, remaining: Units, status: Status, createdAt: int, expiresAt: int)

  /** The columns of an invoice the reconciler copies out when it matches a payment. */
  datatype InvoiceRow = InvoiceRow(
    id: nat, merchant: nat, gross: Units, fee: Units, net: Units, currency: string, grossEquiv: Units)

  datatype PaymentEvent = PaymentEvent(
    token: Token, invoice: Option<nat>, payer: string, amount: Units,
    assetCode: string, assetIssuer: string, verdict: Verdict)

  datatype LedgerEntry = LedgerEntry(
    invoice: nat, merchant: nat, event: nat, gross: Units, fee: Units, net: Units)

  datatype Conversion = Conversion(invoice: nat, merchant: nat)

  datatype Webhook = Webhook(merchant: nat, active: bool, events: set<string>)

  /** An 'invoice.paid' row of webhook_deliveries. */
  datatype Delivery = Delivery(webhook: nat, invoice: nat, event: nat)

  datatype Db = Db(
    events: seq<PaymentEvent>, ledger: seq<LedgerEntry>, conversions: seq<Conversion>,
    deliveries: seq<Delivery>, invoices: seq<Invoice>, webhooks: seq<Webhook>, cursor: Token)

  predicate EventExists(events: seq<PaymentEvent>, token: Token)
  {
    exists i :: 0 <= i < |events| && events[i].token == token
  }

  function RowOf(invoices: seq<Invoice>, i: nat): InvoiceRow
    requires i < |invoices|
  {
    var v := invoices[i];
    InvoiceRow(i, v.merchant, v.gross, v.fee, v.net, v.currency, v.grossEquiv)
  }

  /** The payment_events row written for a payment. */
  function EventRow(p: Payment, amount: Units, invoice: Option<nat>, verdict: Verdict): PaymentEvent
  {
    var code := match p.assetCode
                case Some(c) => c
                case None => if p.assetType == Some("native") then "XLM" else "";
    var issuer := match p.assetIssuer case Some(i) => i case None => "native";
    PaymentEvent(p.token, invoice, p.from, amount, code, issuer, verdict)
  }

  function InsertEvent(db: Db, e: PaymentEvent): Db
  {
    db.(events := db.events + [e])
  }

  function SaveCursor(db: Db, token: Token): Db
  {
    db.(cursor := token)
  }

  /** UPDATE invoices SET status='paid' WHERE id=.. AND status='pending'. */
  function MarkPaid(invoices: seq<Invoice>, id: nat): seq<Invoice>
  {
    if id < |invoices| && invoices[id].status == Pending
    then invoices[id := invoices[id].(status := Paid)]
    else invoices
  }

  predicate WantsPaid(w: Webhook, merchant: nat)
  {
    w.merchant == merchant && w.active && "invoice.paid" in w.events
  }

  /** INSERT INTO webhook_deliveries SELECT .. FROM webhooks WHERE the hook wants the event. */
  function PaidDeliveries(webhooks: seq<Webhook>, row: InvoiceRow, event: nat): seq<Delivery>
  {
    if webhooks == [] then []
    else
      var last := |webhooks| - 1;
      PaidDeliveries(webhooks[..last], row, event)
      + if WantsPaid(webhooks[last], row.merchant) then [Delivery(last, row.id, event)] else []
  }

  /** The four statements the reconciler commits together. */
  function CommitPayment(db: Db, row: InvoiceRow, event: nat): Db
  {
    db.(ledger := db.ledger + [LedgerEntry(row.id, row.merchant, event, row.grossEquiv, row.fee, row.net)],
        invoices := MarkPaid(db.invoices, row.id),
        deliveries := db.deliveries + PaidDeliveries(db.webhooks, row, event),
        conversions := db.conversions + [Conversion(row.id, row.merchant)])
  }

  /** A commit queues one delivery for each webhook of the merchant that is active and subscribed to
      invoice.paid, and no other. */
  lemma {:induction false} PaidDeliveriesExact(webhooks: seq<Webhook>, row: InvoiceRow, event: nat)
    ensures forall w: nat :: Delivery(w, row.id, event) in PaidDeliveries(webhooks, row, event)
                   <==> w < |webhooks| && webhooks[w].merchant == row.merchant && webhooks[w].active
                        && "invoice.paid" in webhooks[w].events
    ensures forall d :: d in PaidDeliveries(webhooks, row, event) ==> d.event == event && d.invoice == row.id
    ensures forall i, j :: 0 <= i < j < |PaidDeliveries(webhooks, row, event)| ==>
                             PaidDeliveries(webhooks, row, event)[i] != PaidDeliveries(webhooks, row, event)[j]
  {
    if webhooks != [] {
      var last := |webhooks| - 1;
      PaidDeliveriesExact(webhooks[..last], row, event);
      var before := PaidDeliveries(webhooks[..last], row, event);
      var added := if WantsPaid(webhooks[last], row.merchant) then [Delivery(last, row.id, event)] else [];
      assert PaidDeliveries(webhooks, row, event) == before + added;
      assert forall w: nat :: Delivery(w, row.id, event) in before + added <==>
                                Delivery(w, row.id, event) in before || Delivery(w, row.id, event) in added;
      assert forall i | 0 <= i < |before| :: before[i] in before;
    }
  }
}
