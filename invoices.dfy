/** controllers/invoiceController.go: creating, updating and viewing invoices. */
module Invoices {
  import opened Common
  import opened Models
  import opened Database
  import opened OrderItems

  /** time.Now().AddDate(0, 0, 1), in seconds. */
  const OneDay: int := 86400

  /** Every stored invoice passes validation. */
  ghost predicate AllValid(invoices: map<nat, Invoice>) {
    forall k :: k in invoices ==> ValidInvoice(invoices[k])
  }

  /** The invoice CreateInvoice validates: the status defaults to pending, the
      due date is one day after the request whatever the client sent, and both
      timestamps are the request time. */
  function PreparedInvoice(payload: Invoice, now: int): (r: Invoice)
    ensures payload.paymentStatus == "" ==> r.paymentStatus == Pending.Text()
    ensures payload.paymentStatus != "" ==> r.paymentStatus == payload.paymentStatus
    ensures r.paymentDueDate == now + OneDay && r.createdAt == now && r.updatedAt == now
    ensures r.id == payload.id && r.orderId == payload.orderId && r.paymentMethod == payload.paymentMethod
  {
    var status := if payload.paymentStatus == "" then PendingText else payload.paymentStatus;
    payload.(paymentStatus := status, paymentDueDate := now + OneDay, createdAt := now, updatedAt := now)
  }

  /** A prepared invoice passes validation exactly when the client named a
      payment method and either named a payment status or left it empty. */
  lemma PreparedInvoiceValid(payload: Invoice, now: int)
    ensures ValidInvoice(PreparedInvoice(payload, now)) <==>
              ParsePaymentMethod(payload.paymentMethod).Some? &&
              (payload.paymentStatus == "" || ParsePaymentStatus(payload.paymentStatus).Some?)
  {
    ValidInvoiceNamesEnums(PreparedInvoice(payload, now));
  }

  /** CreateInvoice: the admin gate, then the order must exist, then the
      prepared invoice must validate; only then is it stored, under the next
      primary key. */
  method CreateInvoice(db: Db, isAdmin: Option<bool>, payload: Invoice, now: int)
    returns (out: Outcome, created: Option<Invoice>)
    requires db.Valid()
    modifies db`invoices, db`nextId
    ensures db.Valid()
    ensures out != Ok ==> created == None && db.invoices == old(db.invoices) && db.nextId == old(db.nextId)
    ensures AdminRejects(isAdmin) ==> out == BadRequest
    ensures !AdminRejects(isAdmin) && payload.orderId !in db.orders ==> out == ServerError
    ensures (!AdminRejects(isAdmin) && payload.orderId in db.orders &&
             !ValidInvoice(PreparedInvoice(payload, now))) ==> out == ServerError
    ensures (!AdminRejects(isAdmin) && payload.orderId in db.orders &&
             ValidInvoice(PreparedInvoice(payload, now))) ==>
              && out == Ok
              && created == Some(PreparedInvoice(payload, now).(id := old(db.nextId)))
              && db.invoices == old(db.invoices)[old(db.nextId) := created.value]
    ensures AllValid(old(db.invoices)) ==> AllValid(db.invoices)
  {
    if AdminRejects(isAdmin) {
      return BadRequest, None;
    }
    if payload.orderId !in db.orders {
      return ServerError, None;
    }
    var invoice := payload;
    if invoice.paymentStatus == "" {
      invoice := invoice.(paymentStatus := PendingText);
    }
    invoice := invoice.(paymentDueDate := now + OneDay);
    invoice := invoice.(createdAt := now);
    invoice := invoice.(updatedAt := now);
    if !ValidInvoice(invoice) {
      return ServerError, None;
    }
    var id := db.FreshId();
    invoice := invoice.(id := id);
    db.invoices := db.invoices[id := invoice];
    out, created := Ok, Some(invoice);
  }

  /** The stored invoice with the non-empty payment fields of the request laid
      over it; the order and the due date never change. */
  function MergeInvoice(existing: Invoice, incoming: Invoice, now: int): (r: Invoice)
    ensures r.paymentMethod == if incoming.paymentMethod != "" then incoming.paymentMethod else existing.paymentMethod
    ensures r.paymentStatus == if incoming.paymentStatus != "" then incoming.paymentStatus else existing.paymentStatus
    ensures r.id == existing.id && r.orderId == existing.orderId
    ensures r.paymentDueDate == existing.paymentDueDate && r.createdAt == existing.createdAt
    ensures r.updatedAt == now
  {
    existing.(
      paymentMethod := Pick(incoming.paymentMethod, "", existing.paymentMethod),
      paymentStatus := Pick(incoming.paymentStatus, "", existing.paymentStatus),
      updatedAt := now)
  }

  /** Starting from a valid invoice, the merged invoice is valid exactly when
      each payment field of the request is empty or names an enum value. */
  lemma MergeInvoiceValid(existing: Invoice, incoming: Invoice, now: int)
    requires ValidInvoice(existing)
    ensures ValidInvoice(MergeInvoice(existing, incoming, now)) <==>
              (incoming.paymentMethod == "" || OneOf(incoming.paymentMethod, MethodWords)) &&
              (incoming.paymentStatus == "" || OneOf(incoming.paymentStatus, StatusWords))
  {
  }

  /** UpdateInvoice: a missing invoice is not found; a merge that fails
      validation is a server error; in neither case is anything saved. */
  method UpdateInvoice(db: Db, invoiceId: nat, incoming: Invoice, now: int)
    returns (out: Outcome, saved: Option<Invoice>)
    requires db.Valid()
    modifies db`invoices
    ensures db.Valid()
    ensures out != Ok ==> saved == None && db.invoices == old(db.invoices)
    ensures invoiceId !in old(db.invoices) ==> out == NotFound
    ensures invoiceId in old(db.invoices) ==>
              var merged := MergeInvoice(old(db.invoices)[invoiceId], incoming, now);
              && (!ValidInvoice(merged) ==> out == ServerError)
              && (ValidInvoice(merged) ==>
                    out == Ok && saved == Some(merged) && db.invoices == old(db.invoices)[invoiceId := merged])
    ensures AllValid(old(db.invoices)) ==> AllValid(db.invoices)
  {
    if invoiceId !in db.invoices {
      return NotFound, None;
    }
    var existing := db.invoices[invoiceId];
    if incoming.paymentMethod != "" {
      existing := existing.(paymentMethod := incoming.paymentMethod);
    }
    if incoming.paymentStatus != "" {
      existing := existing.(paymentStatus := incoming.paymentStatus);
    }
    existing := existing.(updatedAt := now);
    if !ValidInvoice(existing) {
      return ServerError, None;
    }
    db.invoices := db.invoices[invoiceId := existing];
    out, saved := Ok, Some(existing);
  }

  /** The response of GetInvoice. TotalAmount, the SQL sum of the items, is not
      part of this model. */
  datatype InvoiceView = InvoiceView(
    id: nat, paymentMethod: string, orderId: nat, paymentStatus: string,
    paymentDueDate: int, tableNumber: nat, orderDetails: seq<OrderItem>)

  /** The number of the table order `orderId` was placed at; a table row that is
      missing preloads as the zero table. */
  function OrderTableNumber(orders: map<nat, Order>, tables: map<nat, Table>, orderId: nat): (n: nat)
    ensures orderId in orders && orders[orderId].tableId in tables ==>
              n == tables[orders[orderId].tableId].tableNumber
    ensures orderId !in orders || orders[orderId].tableId !in tables ==> n == 0
  {
    if orderId in orders && orders[orderId].tableId in tables then tables[orders[orderId].tableId].tableNumber
    else 0
  }

  /** GetInvoice. A missing invoice leaves a nil record behind the 500 the
      handler writes, and an order without items is indexed past its end: both
      crash the handler, so the client gets no response. Otherwise the view
      copies the invoice and takes the table number from the first item. */
  method GetInvoice(db: Db, invoiceId: nat) returns (out: Outcome, view: Option<InvoiceView>)
    ensures invoiceId !in db.invoices ==> out == Aborted && view == None
    ensures invoiceId in db.invoices ==>
              var inv := db.invoices[invoiceId];
              var items := ItemsByOrder(db.orders, db.orderItems, inv.orderId);
              && (items == [] ==> out == Aborted && view == None)
              && (items != [] ==>
                    && out == Ok
                    && view == Some(InvoiceView(inv.id, inv.paymentMethod, inv.orderId, inv.paymentStatus,
                                                inv.paymentDueDate, OrderTableNumber(db.orders, db.tables, inv.orderId),
                                                items)))
  {
    if invoiceId !in db.invoices {
      return Aborted, None;
    }
    var invoice := db.invoices[invoiceId];
    var allOrderItems := ItemsByOrder(db.orders, db.orderItems, invoice.orderId);
    if allOrderItems == [] {
      return Aborted, None;
    }
    var v := InvoiceView(0, "", 0, "", 0, 0, []);
    v := v.(orderId := invoice.orderId);
    v := v.(paymentDueDate := invoice.paymentDueDate);
    v := v.(paymentMethod := invoice.paymentMethod);
    v := v.(id := invoice.id);
    v := v.(paymentStatus := invoice.paymentStatus);
    v := v.(tableNumber := OrderTableNumber(db.orders, db.tables, allOrderItems[0].orderId));
    v := v.(orderDetails := allOrderItems);
    out, view := Ok, Some(v);
  }
}
