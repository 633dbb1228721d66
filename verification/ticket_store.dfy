/** The ticket repository: an append-only ledger of sales documents, each
    holding a flattened snapshot of the products sold. */
module TicketStore {
  import opened Results
  import opened ProductModel
  import JavaInt

  /** A timestamp, as milliseconds since the epoch. */
  datatype Date = Date(millis: int)

  /** One entry of a ticket: a product and the quantity of it sold. */
  datatype Sale = Sale(product: Product, sold: int)

  /** A completed sale. The total is computed by the caller. */
  datatype Ticket = Ticket(ticketID: int, date: Date, sales: seq<Sale>, total: real)

  /** The stored form of one sale: a snapshot, not a catalogue reference. */
  datatype LineItem = LineItem(name: string, typeName: string, features: string, quantity: int, price: real)

  datatype TicketDoc = TicketDoc(ticketID: int, date: Date, products: seq<LineItem>, totalPrice: real)

  /** The ticket collection in store (insertion) order. */
  type Ledger = seq<TicketDoc>

  /** How a double is written into, and read back from, a string: the
      platform's decimal rendering and parsing, which this model does not
      fix. `parse` yields `None` where parsing throws. */
  datatype DoubleText = DoubleText(show: real -> string, parse: string -> Option<real>)

  // ---------------------------------------------------------------------
  // Line items

  /** Flattens one sale into a line item. */
  function EncodeLine(s: Sale, show: real -> string): LineItem {
    LineItem(s.product.name, TypeName(s.product.Type()), ValueText(s.product.Attribute(), show),
             s.sold, s.product.price)
  }

  /** Rebuilds a sale from a line item. The type string must equal a tag
      name exactly (no case folding). The product has no id, and its
      quantity is the quantity sold. */
  function DecodeLine(li: LineItem, parse: string -> Option<real>): (r: Result<Sale, StoreError>)
    ensures r.Err? <==>
      TypeFromName(li.typeName).None? || (li.typeName == TypeName(TREE) && parse(li.features).None?)
    ensures TypeFromName(li.typeName).None? ==> r == Err(UnknownVariant(li.typeName))
    ensures r.Ok? ==>
      var p := r.value.product;
      && TypeName(p.Type()) == li.typeName
      && p.productId == None
      && p.name == li.name && p.price == li.price
      && p.quantity == li.quantity && r.value.sold == li.quantity
      && (!p.Tree? ==> p.Attribute() == StringValue(li.features))
      && (p.Tree? ==> parse(li.features) == Some(p.height))
  {
    if li.typeName == TypeName(FLOWER) then
      Ok(Sale(Flower(None, li.name, li.quantity, li.price, StringValue(li.features)), li.quantity))
    else if li.typeName == TypeName(DECORATION) then
      Ok(Sale(Decoration(None, li.name, li.quantity, li.price, StringValue(li.features)), li.quantity))
    else if li.typeName == TypeName(TREE) then
      match parse(li.features)
      case Some(h) => Ok(Sale(Tree(None, li.name, li.quantity, li.price, h), li.quantity))
      case None => Err(BadNumber(li.features))
    else
      Err(UnknownVariant(li.typeName))
  }

  function EncodeLines(sales: seq<Sale>, show: real -> string): (lis: seq<LineItem>)
    ensures |lis| == |sales|
    ensures forall i :: 0 <= i < |sales| ==> lis[i] == EncodeLine(sales[i], show)
  {
    seq(|sales|, i requires 0 <= i < |sales| => EncodeLine(sales[i], show))
  }

  /** Decodes every line item, in order; fails when any one does. */
  function DecodeLines(lis: seq<LineItem>, parse: string -> Option<real>): (r: Result<seq<Sale>, StoreError>)
    ensures r.Ok? <==> forall i :: 0 <= i < |lis| ==> DecodeLine(lis[i], parse).Ok?
    ensures r.Ok? ==> |r.value| == |lis|
    ensures r.Ok? ==> forall i :: 0 <= i < |lis| ==> DecodeLine(lis[i], parse) == Ok(r.value[i])
  {
    if lis == [] then Ok([])
    else
      var s :- DecodeLine(lis[0], parse);
      var ss :- DecodeLines(lis[1..], parse);
      Ok([s] + ss)
  }

  // ---------------------------------------------------------------------
  // Tickets

  /** The document `newTicket` writes under the allocated id; date and total
      are copied, not recomputed. */
  function EncodeTicket(t: Ticket, ticketID: int, show: real -> string): TicketDoc {
    TicketDoc(ticketID, t.date, EncodeLines(t.sales, show), t.total)
  }

  function DecodeTicket(d: TicketDoc, parse: string -> Option<real>): (r: Result<Ticket, StoreError>)
    ensures r.Ok? <==> DecodeLines(d.products, parse).Ok?
    ensures r.Ok? ==>
      && r.value.ticketID == d.ticketID && r.value.date == d.date && r.value.total == d.totalPrice
      && r.value.sales == DecodeLines(d.products, parse).value
  {
    var sales :- DecodeLines(d.products, parse);
    Ok(Ticket(d.ticketID, d.date, sales, d.totalPrice))
  }

  /** Position of the document with the greatest ticket id; among equal ids
      the first in store order. */
  function MaxTicketIndex(l: Ledger): (k: nat)
    requires |l| > 0
    ensures k < |l|
    ensures forall j :: 0 <= j < |l| ==> l[j].ticketID <= l[k].ticketID
    ensures forall j :: 0 <= j < k ==> l[j].ticketID < l[k].ticketID
  {
    if |l| == 1 then 0
    else
      var k := MaxTicketIndex(l[..|l| - 1]);
      if l[|l| - 1].ticketID > l[k].ticketID then |l| - 1 else k
  }

  /** The ticket with the greatest id, decoded, or `None` on an empty ledger. */
  function LastTicket(l: Ledger, parse: string -> Option<real>): (r: Result<Option<Ticket>, StoreError>)
    ensures r == Ok(None) <==> |l| == 0
    ensures r.Err? <==> |l| > 0 && DecodeTicket(l[MaxTicketIndex(l)], parse).Err?
    ensures r.Ok? && |l| > 0 ==> r.value.Some? && Ok(r.value.value) == DecodeTicket(l[MaxTicketIndex(l)], parse)
    ensures r.Ok? && r.value.Some? ==> |l| > 0 && r.value.value.ticketID == l[MaxTicketIndex(l)].ticketID
  {
    if |l| == 0 then Ok(None)
    else
      var t :- DecodeTicket(l[MaxTicketIndex(l)], parse);
      Ok(Some(t))
  }

  /** No stored ticket id is `Integer.MAX_VALUE` or more. */
  predicate IdsBelowIntMax(l: Ledger) {
    forall j :: 0 <= j < |l| ==> l[j].ticketID < JavaInt.MaxInt
  }

  /** Scan-max allocation of ticket ids: 1 on an empty ledger, otherwise the
      greatest stored id plus one in 32-bit arithmetic. Unless the greatest
      id is `Integer.MAX_VALUE`, the result is above every stored id. */
  function NextTicketId(l: Ledger, parse: string -> Option<real>): (r: Result<int, StoreError>)
    ensures |l| == 0 ==> r == Ok(1)
    ensures r.Err? <==> |l| > 0 && DecodeTicket(l[MaxTicketIndex(l)], parse).Err?
    ensures r.Ok? && |l| > 0 ==> r.value == JavaInt.Wrap(l[MaxTicketIndex(l)].ticketID + 1)
    ensures r.Ok? && IdsBelowIntMax(l) ==> forall j :: 0 <= j < |l| ==> l[j].ticketID < r.value
  {
    var last :- LastTicket(l, parse);
    match last
    case None => Ok(1)
    case Some(t) => Ok(JavaInt.Wrap(t.ticketID + 1))
  }

  /** Appends one ticket document under the next ticket id (the ticket's own
      id is ignored), with one line item per sale. */
  function NewTicket(l: Ledger, t: Ticket, fmt: DoubleText): (r: Result<Ledger, StoreError>)
    ensures r.Err? <==> NextTicketId(l, fmt.parse).Err?
    ensures r.Ok? ==> |r.value| == |l| + 1 && r.value[..|l|] == l
    ensures r.Ok? ==>
      var d := r.value[|l|];
      && NextTicketId(l, fmt.parse) == Ok(d.ticketID)
      && d.date == t.date && d.totalPrice == t.total
      && |d.products| == |t.sales|
      && forall i :: 0 <= i < |t.sales| ==>
           var li, s := d.products[i], t.sales[i];
           && li.name == s.product.name
           && li.typeName == TypeName(s.product.Type())
           && li.features == ValueText(s.product.Attribute(), fmt.show)
           && li.quantity == s.sold
           && li.price == s.product.price
  {
    var ticketID :- NextTicketId(l, fmt.parse);
    Ok(l + [EncodeTicket(t, ticketID, fmt.show)])
  }

  /** Every stored ticket, decoded, in store order. */
  function GetAllTickets(l: Ledger, parse: string -> Option<real>): (r: Result<seq<Ticket>, StoreError>)
    ensures r.Ok? <==> forall i :: 0 <= i < |l| ==> DecodeTicket(l[i], parse).Ok?
    ensures r.Ok? ==> |r.value| == |l|
    ensures r.Ok? ==> forall i :: 0 <= i < |l| ==> DecodeTicket(l[i], parse) == Ok(r.value[i])
  {
    if l == [] then Ok([])
    else
      var t :- DecodeTicket(l[0], parse);
      var ts :- GetAllTickets(l[1..], parse);
      Ok([t] + ts)
  }

  /** The sales total: the tickets' totals added up left to right. */
  function AllSales(ts: seq<Ticket>): real {
    if ts == [] then 0.0 else AllSales(ts[..|ts| - 1]) + ts[|ts| - 1].total
  }
}
