/** What the run theorems say about the webhooks that were received, and not only about their verdicts. */
module WebhookCalls {
  import opened Prelude
  import opened WebhookInbox
  import opened WebhookRuns

  /** One call of `apply_verified_event`. */
  datatype Call = Call(webhook: Webhook, cfg: Config, now: int)

  function Deliveries(calls: seq<Call>): (ds: seq<Delivery>)
    ensures |ds| == |calls|
    ensures forall i | 0 <= i < |calls| :: ds[i] == Checked(calls[i].webhook, calls[i].cfg, calls[i].now)
  {
    seq(|calls|, i requires 0 <= i < |calls| => Checked(calls[i].webhook, calls[i].cfg, calls[i].now))
  }

  predicate IsFirstAcceptance(t0: Tables, ds: seq<Delivery>, i: nat) {
    i < |ds| && ReplyAt(t0, ds, i).Ok? && !ReplyAt(t0, ds, i).value.duplicate
  }

  /** The log holds deliveries of the run that were accepted for the first time. */
  lemma {:induction false} LogIsAccepted(t0: Tables, ds: seq<Delivery>, k: nat) returns (i: nat)
    requires k < |Log(t0, ds)|
    ensures IsFirstAcceptance(t0, ds, i) && ds[i] == Log(t0, ds)[k]
  {
    var n := |ds| - 1;
    if k < |Log(t0, ds[..n])| {
      i := LogIsAccepted(t0, ds[..n], k);
      assert ds[..n][..i] == ds[..i];
    } else {
      i := n;
    }
  }

  /** The row does what the payload asks for, for an order with the terms the payload names. */
  predicate IsJustified(row: OutboxRow, orders: map<string, Order>, c: Call, p: Payment) {
    && IsOurs(c.webhook.payload, c.cfg)
    && IsPaymentOf(c.webhook.payload, p)
    && row.eventId == c.webhook.eventId && row.createdAt == c.now
    && row.orderId == p.orderId && row.operation == (if p.kind == Settled then Fulfill else Review)
    && HasTerms(orders, p)
  }

  lemma {:induction false} AcceptedHasTerms(t0: Tables, ds: seq<Delivery>, i: nat, p: Payment)
    requires IsFresh(t0) && IsFirstAcceptance(t0, ds, i) && PaymentOf(ds[i]) == Some(p)
    ensures HasTerms(t0.orders, p)
  {
    RunsKeepJournal(t0, ds[..i]);
    OnlyAcceptanceWrites(Final(t0, ds[..i]), ds[i]);
  }

  /**
   Every run: an outbox row comes from an accepted webhook that is for this merchant and environment and is a
   complete settlement or reorg, with that order's own amount and currency.
   */
  lemma {:induction false} RowsComeFromCalls(t0: Tables, calls: seq<Call>, r: nat) returns (i: nat, p: Payment)
    requires IsFresh(t0) && r < |Final(t0, Deliveries(calls)).outbox|
    ensures IsFirstAcceptance(t0, Deliveries(calls), i)
    ensures IsJustified(Final(t0, Deliveries(calls)).outbox[r], t0.orders, calls[i], p)
  {
    var ds := Deliveries(calls);
    RunsKeepJournal(t0, ds);
    var k := RowComesFromLog(Log(t0, ds), r);
    i := LogIsAccepted(t0, ds, k);
    p := PaymentOf(ds[i]).value;
    ValidatedExactly(calls[i].webhook.payload, calls[i].cfg, p);
    AcceptedHasTerms(t0, ds, i, p);
  }

  lemma {:induction false} AcceptedIsLogged(t0: Tables, ds: seq<Delivery>, i: nat) returns (k: nat)
    requires IsFirstAcceptance(t0, ds, i)
    ensures k < |Log(t0, ds)| && Log(t0, ds)[k] == ds[i]
  {
    var n := |ds| - 1;
    if i < n {
      assert ds[..n][..i] == ds[..i];
      k := AcceptedIsLogged(t0, ds[..n], i);
    } else {
      k := |Log(t0, ds[..n])|;
    }
  }

  /** Every run: an accepted settlement or reorg has exactly one outbox row, and that row does what it asks for. */
  lemma {:induction false} CallsHaveRows(t0: Tables, calls: seq<Call>, i: nat, p: Payment)
    requires IsFresh(t0) && IsFirstAcceptance(t0, Deliveries(calls), i) && IsPaymentOf(calls[i].webhook.payload, p)
    ensures var outbox, eventId := Final(t0, Deliveries(calls)).outbox, calls[i].webhook.eventId;
            && RowCount(outbox, eventId) == 1
            && forall r | 0 <= r < |outbox| && outbox[r].eventId == eventId ::
                 IsJustified(outbox[r], t0.orders, calls[i], p)
  {
    var ds := Deliveries(calls);
    IdentityExactly(calls[i].webhook.payload, calls[i].cfg);
    ValidatedExactly(calls[i].webhook.payload, calls[i].cfg, p);
    AcceptedHasTerms(t0, ds, i, p);
    RunsKeepJournal(t0, ds);
    var k := AcceptedIsLogged(t0, ds, i);
    RowsOfLog(Log(t0, ds), k);
  }

  //// Acceptance, told by the history alone

  /** Some delivery with this event id was accepted. */
  predicate WasAccepted(t0: Tables, ds: seq<Delivery>, eventId: string) {
    var n := |ds| - 1;
    ds != [] && (WasAccepted(t0, ds[..n], eventId) || (IsFirstAcceptance(t0, ds, n) && ds[n].eventId == eventId))
  }

  predicate IsSettlementFor(d: Delivery, o: string) {
    PaymentOf(d).Some? && PaymentOf(d).value.kind == Settled && PaymentOf(d).value.orderId == o
  }

  /** Some settlement of this order was accepted. */
  predicate WasSettled(t0: Tables, ds: seq<Delivery>, o: string) {
    var n := |ds| - 1;
    ds != [] && (WasSettled(t0, ds[..n], o) || (IsFirstAcceptance(t0, ds, n) && IsSettlementFor(ds[n], o)))
  }

  predicate HaveIds(ds: seq<Delivery>) {
    forall i | 0 <= i < |ds| :: ds[i].eventId != ""
  }

  lemma {:induction false} DeliverByHistory(t: Tables, d: Delivery, eventId: string, o: string)
    ensures var (t', r) := Deliver(t, d);
            var accepted := r.Ok? && !r.value.duplicate;
            && (eventId in t'.inbox <==> eventId in t.inbox || (accepted && d.eventId == eventId))
            && (o in t'.orders <==> o in t.orders)
            && (o in t.orders ==>
                  var settlement := if accepted && IsSettlementFor(d, o) then Some(d.eventId) else t.orders[o].settlement;
                  t'.orders[o].settlement == settlement)
  {
  }

  lemma {:induction false} TablesByHistory(t0: Tables, ds: seq<Delivery>, eventId: string, o: string)
    requires IsFresh(t0) && HaveIds(ds) && o in t0.orders
    ensures eventId in Final(t0, ds).inbox <==> WasAccepted(t0, ds, eventId)
    ensures o in Final(t0, ds).orders && (IsTaken(Final(t0, ds).orders, o) <==> WasSettled(t0, ds, o))
    ensures Final(t0, ds).orders[o].settlement != Some("")
  {
    if ds != [] {
      var n := |ds| - 1;
      TablesByHistory(t0, ds[..n], eventId, o);
      DeliverByHistory(Final(t0, ds[..n]), ds[n], eventId, o);
    }
  }

  lemma {:induction false} InboxByHistory(t0: Tables, ds: seq<Delivery>, eventId: string)
    requires IsFresh(t0)
    ensures eventId in Final(t0, ds).inbox <==> WasAccepted(t0, ds, eventId)
  {
    if ds != [] {
      var n := |ds| - 1;
      InboxByHistory(t0, ds[..n], eventId);
      DeliverByHistory(Final(t0, ds[..n]), ds[n], eventId, "");
    }
  }

  /**
   Every run with non-empty ids: a delivery is accepted for the first time exactly when it is valid, its id was not
   accepted before, and, if it is about a payment, it names an order with its terms and is a reorg or the first
   settlement of that order.
   */
  lemma {:induction false} AcceptedByHistory(t0: Tables, ds: seq<Delivery>, i: nat)
    requires IsFresh(t0) && HaveIds(ds) && i < |ds|
    ensures IsFirstAcceptance(t0, ds, i) <==>
            && ds[i].verdict.Ok?
            && !WasAccepted(t0, ds[..i], ds[i].eventId)
            && (PaymentOf(ds[i]).Some? ==>
                  var p := PaymentOf(ds[i]).value;
                  HasTerms(t0.orders, p) && (p.kind == Reorged || !WasSettled(t0, ds[..i], p.orderId)))
  {
    var t := Final(t0, ds[..i]);
    RunsFulfillOnce(t0, ds[..i]);
    AcceptedExactly(t, ds[i]);
    InboxByHistory(t0, ds[..i], ds[i].eventId);
    if PaymentOf(ds[i]).Some? {
      var p := PaymentOf(ds[i]).value;
      RunsKeepJournal(t0, ds[..i]);
      if p.orderId in t0.orders {
        TablesByHistory(t0, ds[..i], ds[i].eventId, p.orderId);
      }
    }
  }

  predicate IsOtherEvent(payload: map<string, Json>) {
    Field(payload, "event_type").Str? && Field(payload, "event_type").s !in {"payment.settled", "payment.reorged"}
  }

  /** The same, told by the webhooks. */
  lemma {:induction false} CallsAcceptedByHistory(t0: Tables, calls: seq<Call>, i: nat, p: Payment)
    requires IsFresh(t0) && i < |calls| && HaveIds(Deliveries(calls))
    ensures var ds, payload := Deliveries(calls), calls[i].webhook.payload;
            var isNew := IsOurs(payload, calls[i].cfg) && !WasAccepted(t0, ds[..i], calls[i].webhook.eventId);
            && (IsOtherEvent(payload) ==> (IsFirstAcceptance(t0, ds, i) <==> isNew))
            && (IsPaymentOf(payload, p) ==>
                  (IsFirstAcceptance(t0, ds, i) <==>
                   && isNew && HasTerms(t0.orders, p)
                   && (p.kind == Reorged || !WasSettled(t0, ds[..i], p.orderId))))
            && (IsFirstAcceptance(t0, ds, i) ==>
                  IsOtherEvent(payload) || IsPaymentOf(payload, PaymentOf(ds[i]).value))
  {
    var ds, c := Deliveries(calls), calls[i];
    AcceptedByHistory(t0, ds, i);
    ValidatedExactly(c.webhook.payload, c.cfg, p);
    if PaymentOf(ds[i]).Some? {
      ValidatedExactly(c.webhook.payload, c.cfg, PaymentOf(ds[i]).value);
    }
    if IsOurs(c.webhook.payload, c.cfg) && IsOtherEvent(c.webhook.payload) {
      assert ds[i].verdict == Ok(None);
    }
  }

  //// The empty event id

  const ANYONE := Config(None, None)
  const PAID := Payment(Settled, "o", "1", "RUB")

  /** A complete settlement of order `o` for one kopeck. */
  function SettledPayload(): map<string, Json> {
    map["schema_version" := Str("1"),
        "sequence" := Int(1),
        "event_type" := Str("payment.settled"),
        "payment_intent" := Obj(map["merchant_order_id" := Str("o"), "amount_minor" := Str("1"),
                                    "currency" := Str("RUB"), "status" := Str("settled")]),
        "settlement" := Obj(map["settlement_id" := Str("s"), "expected_raw" := Str("1"), "received_raw" := Str("1"),
                                "credited_raw" := Str("1"), "block_height" := Str("1")])]
  }

  lemma PayloadIsSettlement()
    ensures Validate(SettledPayload(), ANYONE) == Ok(Some(PAID))
  {
    var payload := SettledPayload();
    var intent := Field(payload, "payment_intent");
    assert IsIntentOf(intent, PAID);
    assert IsEvidence(Field(payload, "settlement"));
    ValidatedExactly(payload, ANYONE, PAID);
  }

  /** Two accepted settlements of an order that awaits payment, the first with the empty id: two fulfil rows. */
  lemma {:induction false} BothAreFulfilled(t0: Tables, d0: Delivery, d1: Delivery)
    requires t0 == Tables(map["o" := Order("1", "RUB", AwaitingPayment, None)], map[], [])
    requires d0.verdict == d1.verdict == Ok(Some(PAID)) && d0.eventId == "" && d1.eventId == "e"
    ensures !AtMostOneFulfill(Final(t0, [d0, d1]))
  {
    var t1 := Deliver(t0, d0).0;
    assert t1.outbox == [OutboxRow(1, "", "o", Fulfill, d0.now)];
    var t2 := Deliver(t1, d1).0;
    assert t2.outbox == [OutboxRow(1, "", "o", Fulfill, d0.now), OutboxRow(2, "e", "o", Fulfill, d1.now)];
    assert t2.outbox[0].operation == t2.outbox[1].operation == Fulfill;
    assert [d0, d1][..1] == [d0] && [d0][..0] == [];
    assert Final(t0, [d0]) == t1;
  }

  lemma {:induction false} TwoCallsAreFulfilled(t0: Tables, payload: map<string, Json>)
    requires t0 == Tables(map["o" := Order("1", "RUB", AwaitingPayment, None)], map[], [])
    requires Validate(payload, ANYONE) == Ok(Some(PAID))
    ensures var calls := [Call(Webhook("", "d0", payload), ANYONE, 0), Call(Webhook("e", "d1", payload), ANYONE, 1)];
            !AtMostOneFulfill(Final(t0, Deliveries(calls)))
  {
    var calls := [Call(Webhook("", "d0", payload), ANYONE, 0), Call(Webhook("e", "d1", payload), ANYONE, 1)];
    var ds := Deliveries(calls);
    assert ds == [ds[0], ds[1]];
    BothAreFulfilled(t0, ds[0], ds[1]);
  }

  /** With an empty event id the promise fails: two settlement webhooks for one order are both fulfilled. */
  lemma EmptyIdFulfillsTwice()
    ensures var t0 := Tables(map["o" := Order("1", "RUB", AwaitingPayment, None)], map[], []);
            var calls := [Call(Webhook("", "d0", SettledPayload()), ANYONE, 0),
                          Call(Webhook("e", "d1", SettledPayload()), ANYONE, 1)];
            IsFresh(t0) && !AtMostOneFulfill(Final(t0, Deliveries(calls)))
  {
    PayloadIsSettlement();
    TwoCallsAreFulfilled(Tables(map["o" := Order("1", "RUB", AwaitingPayment, None)], map[], []), SettledPayload());
  }
}
