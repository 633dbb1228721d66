/** Laws of the ticket repository: what a stored ticket reads back as, how
    ticket ids are allocated, and how sales totals combine. */
module TicketLaws {
  import opened Results
  import opened ProductModel
  import Text
  import ProductListing
  import ProductStore
  import opened TicketStore
  import JavaInt

  /** What a sale reads back as: no id, the sold quantity as its quantity,
      and, for flowers and decorations, the attribute's string form. */
  function Snapshot(s: Sale, show: real -> string): Product {
    match s.product
    case Tree(_, n, _, pr, h) => Tree(None, n, s.sold, pr, h)
    case Flower(_, n, _, pr, c) => Flower(None, n, s.sold, pr, StringValue(ValueText(c, show)))
    case Decoration(_, n, _, pr, m) => Decoration(None, n, s.sold, pr, StringValue(ValueText(m, show)))
  }

  /** A tree's height survives being printed and parsed back. */
  predicate HeightRoundTrips(s: Sale, fmt: DoubleText) {
    s.product.Tree? ==> fmt.parse(fmt.show(s.product.height)) == Some(s.product.height)
  }

  /** A line item written for a sale decodes to that sale's snapshot; a
      string-valued flower or decoration attribute comes back unchanged. */
  lemma LineRoundTrip(s: Sale, fmt: DoubleText)
    requires HeightRoundTrips(s, fmt)
    ensures DecodeLine(EncodeLine(s, fmt.show), fmt.parse) == Ok(Sale(Snapshot(s, fmt.show), s.sold))
    ensures !s.product.Tree? && s.product.Attribute().StringValue? ==>
      DecodeLine(EncodeLine(s, fmt.show), fmt.parse).value.product.Attribute() == s.product.Attribute()
  {
  }

  /** A ticket written by `newTicket` decodes to the allocated id, the same
      date and total, and the snapshots of its sales in order. */
  lemma TicketRoundTrip(t: Ticket, ticketID: int, fmt: DoubleText)
    requires forall i :: 0 <= i < |t.sales| ==> HeightRoundTrips(t.sales[i], fmt)
    ensures DecodeTicket(EncodeTicket(t, ticketID, fmt.show), fmt.parse)
            == Ok(Ticket(ticketID, t.date,
                         seq(|t.sales|, i requires 0 <= i < |t.sales| => Sale(Snapshot(t.sales[i], fmt.show), t.sales[i].sold)),
                         t.total))
  {
    var lis := EncodeLines(t.sales, fmt.show);
    forall i | 0 <= i < |lis|
      ensures DecodeLine(lis[i], fmt.parse) == Ok(Sale(Snapshot(t.sales[i], fmt.show), t.sales[i].sold))
    {
      LineRoundTrip(t.sales[i], fmt);
    }
    var expected := seq(|t.sales|, i requires 0 <= i < |t.sales| => Sale(Snapshot(t.sales[i], fmt.show), t.sales[i].sold));
    assert DecodeLines(lis, fmt.parse).value == expected;
  }

  /** Line items match the type string exactly, where product documents
      upper-case it first: "flower" is a flower in the catalogue but an
      unknown variant on a ticket. */
  lemma LineTypeIsCaseSensitive(parse: string -> Option<real>)
    ensures DecodeLine(LineItem("Rose", "flower", "red", 1, 2.0), parse) == Err(UnknownVariant("flower"))
    ensures ProductStore.DecodeProduct(ProductListing.ProductDoc("Rose", 1, 1, 2.0, "flower", StringValue("red")))
            == Ok(Flower(Some(1), "Rose", 1, 2.0, StringValue("red")))
  {
    assert Text.Upper("flower") == "FLOWER";
  }

  // ---------------------------------------------------------------------
  // Ticket ids

  /** Writes tickets one after another. */
  function NewAll(l: Ledger, ts: seq<Ticket>, fmt: DoubleText): Result<Ledger, StoreError>
    decreases |ts|
  {
    if ts == [] then Ok(l)
    else
      var l' :- NewTicket(l, ts[0], fmt);
      NewAll(l', ts[1..], fmt)
  }

  /** Every tree height on the ticket parses back. */
  predicate HeightsParse(t: Ticket, fmt: DoubleText) {
    forall i :: 0 <= i < |t.sales| ==>
      t.sales[i].product.Tree? ==> fmt.parse(fmt.show(t.sales[i].product.height)).Some?
  }

  predicate NumberedFromOne(l: Ledger) {
    forall i :: 0 <= i < |l| ==> l[i].ticketID == i + 1
  }

  predicate AllDecode(l: Ledger, parse: string -> Option<real>) {
    forall i :: 0 <= i < |l| ==> DecodeTicket(l[i], parse).Ok?
  }

  lemma EncodedTicketDecodes(t: Ticket, ticketID: int, fmt: DoubleText)
    requires HeightsParse(t, fmt)
    ensures DecodeTicket(EncodeTicket(t, ticketID, fmt.show), fmt.parse).Ok?
  {
    var lis := EncodeLines(t.sales, fmt.show);
    forall i | 0 <= i < |lis| ensures DecodeLine(lis[i], fmt.parse).Ok? {
      assert lis[i] == EncodeLine(t.sales[i], fmt.show);
    }
  }

  lemma {:induction false} TicketIdsCountUp(l: Ledger, ts: seq<Ticket>, fmt: DoubleText)
    requires NumberedFromOne(l) && AllDecode(l, fmt.parse)
    requires |l| + |ts| <= JavaInt.MaxInt
    requires forall k :: 0 <= k < |ts| ==> HeightsParse(ts[k], fmt)
    ensures NewAll(l, ts, fmt).Ok?
    ensures |NewAll(l, ts, fmt).value| == |l| + |ts|
    ensures NumberedFromOne(NewAll(l, ts, fmt).value) && AllDecode(NewAll(l, ts, fmt).value, fmt.parse)
    decreases |ts|
  {
    if ts != [] {
      var r := NewTicket(l, ts[0], fmt);
      assert r.Ok?;
      var l' := r.value;
      var d := l'[|l|];
      assert l' == l + [d];
      assert d.ticketID == |l| + 1 by {
        if |l| > 0 {
          var k := MaxTicketIndex(l);
          assert l[|l| - 1].ticketID <= l[k].ticketID;
          assert k == |l| - 1;
        }
      }
      assert d == EncodeTicket(ts[0], |l| + 1, fmt.show);
      EncodedTicketDecodes(ts[0], |l| + 1, fmt);
      TicketIdsCountUp(l', ts[1..], fmt);
    }
  }

  /** At `Integer.MAX_VALUE` the ticket allocator wraps to
      `Integer.MIN_VALUE`, so a ledger that already holds that id receives a
      duplicate. */
  lemma TicketIdWrapsAtIntMax(parse: string -> Option<real>)
    ensures var l := [TicketDoc(JavaInt.MaxInt, Date(0), [], 0.0)];
      NextTicketId(l, parse) == Ok(JavaInt.MinInt)
    ensures var l := [TicketDoc(JavaInt.MinInt, Date(0), [], 1.0),
                      TicketDoc(JavaInt.MaxInt, Date(0), [], 0.0)];
      NextTicketId(l, parse) == Ok(l[0].ticketID)
  {
    var l1 := [TicketDoc(JavaInt.MaxInt, Date(0), [], 0.0)];
    assert MaxTicketIndex(l1) == 0;
    var l2 := [TicketDoc(JavaInt.MinInt, Date(0), [], 1.0)] + l1;
    assert MaxTicketIndex(l2) == 1;
    assert l2[1] == l1[0];
  }

  /** From an empty ledger, N sequential `newTicket` calls store ids
      1, 2, ..., N. */
  lemma SequentialTicketIds(ts: seq<Ticket>, fmt: DoubleText)
    requires |ts| <= JavaInt.MaxInt
    requires forall k :: 0 <= k < |ts| ==> HeightsParse(ts[k], fmt)
    ensures NewAll([], ts, fmt).Ok?
    ensures var l := NewAll([], ts, fmt).value;
      |l| == |ts| && forall i :: 0 <= i < |l| ==> l[i].ticketID == i + 1
  {
    TicketIdsCountUp([], ts, fmt);
  }

  /** Listing the ledger after `newTicket` gives the earlier listing with the
      new ticket, decoded, at the end. */
  lemma {:induction false} ListingAfterAppend(l: Ledger, d: TicketDoc, parse: string -> Option<real>)
    requires GetAllTickets(l, parse).Ok? && DecodeTicket(d, parse).Ok?
    ensures GetAllTickets(l + [d], parse) == Ok(GetAllTickets(l, parse).value + [DecodeTicket(d, parse).value])
  {
    if l == [] {
      assert l + [d] == [d] && [d][1..] == [];
      assert GetAllTickets([d][1..], parse) == Ok([]);
      var t := DecodeTicket(d, parse).value;
      assert [t] + [] == [t];
      assert GetAllTickets(l, parse).value == [];
      assert GetAllTickets(l, parse).value + [t] == [t];
      assert GetAllTickets([d], parse) == Ok([DecodeTicket(d, parse).value]);
    } else {
      assert (l + [d])[1..] == l[1..] + [d];
      assert (l + [d])[0] == l[0];
      ListingAfterAppend(l[1..], d, parse);
      var head := DecodeTicket(l[0], parse).value;
      var tail := GetAllTickets(l[1..], parse).value;
      assert GetAllTickets(l, parse).value == [head] + tail;
      assert [head] + (tail + [DecodeTicket(d, parse).value]) == ([head] + tail) + [DecodeTicket(d, parse).value];
    }
  }

  lemma ListingAfterNewTicket(l: Ledger, t: Ticket, fmt: DoubleText)
    requires GetAllTickets(l, fmt.parse).Ok? && NewTicket(l, t, fmt).Ok?
    requires HeightsParse(t, fmt)
    ensures var l' := NewTicket(l, t, fmt).value;
      GetAllTickets(l', fmt.parse).Ok?
      && GetAllTickets(l', fmt.parse).value[..|l|] == GetAllTickets(l, fmt.parse).value
      && GetAllTickets(l', fmt.parse).value[|l|]
         == DecodeTicket(EncodeTicket(t, NextTicketId(l, fmt.parse).value, fmt.show), fmt.parse).value
  {
    var l' := NewTicket(l, t, fmt).value;
    var d := EncodeTicket(t, NextTicketId(l, fmt.parse).value, fmt.show);
    assert l' == l + [d];
    EncodedTicketDecodes(t, NextTicketId(l, fmt.parse).value, fmt);
    ListingAfterAppend(l, d, fmt.parse);
  }

  // ---------------------------------------------------------------------
  // Sales totals

  /** The sales total of two batches of tickets is the sum of their totals,
      so every ticket is counted exactly once. */
  lemma {:induction false} AllSalesAppend(a: seq<Ticket>, b: seq<Ticket>)
    ensures AllSales(a + b) == AllSales(a) + AllSales(b)
    decreases |b|
  {
    if b == [] {
      assert a + b == a;
    } else {
      var b' := b[..|b| - 1];
      assert (a + b)[..|a + b| - 1] == a + b';
      AllSalesAppend(a, b');
    }
  }

  lemma AllSalesSingle(t: Ticket)
    ensures AllSales([t]) == t.total
  {
    assert [t][..0] == [];
  }

  /** Totals 10.0, 25.5 and 4.5 add up to 40.0. */
  lemma AllSalesExample(d: Date)
    ensures AllSales([Ticket(1, d, [], 10.0), Ticket(2, d, [], 25.5), Ticket(3, d, [], 4.5)]) == 40.0
  {
    var ts := [Ticket(1, d, [], 10.0), Ticket(2, d, [], 25.5), Ticket(3, d, [], 4.5)];
    AllSalesSingle(ts[0]);
    assert ts[..1] == [ts[0]] && ts[..2][..1] == ts[..1];
    assert AllSales(ts[..2]) == 35.5;
  }
}
