/**
 The webhook consumer's three tables and the transaction that applies one verified event to them.

 A webhook is an event whose signature was already checked: its id, the digest of its body and the
 parsed body. Hashes and signatures are taken as given.
 */
module WebhookInbox {
  import opened Prelude

  datatype Json =
    | Null
    | Bool(b: bool)
    | Int(n: int)
    | Number(x: real)
    | Str(s: string)
    | Arr(items: seq<Json>)
    | Obj(fields: map<string, Json>)

  datatype Webhook = Webhook(eventId: string, digest: string, payload: map<string, Json>)

  /** The merchant and environment this server accepts events for; `None` accepts any. */
  datatype Config = Config(merchant: Option<string>, livemode: Option<bool>)

  datatype Error =
    | UnsupportedSchema
    | InvalidEvent
    | MerchantMismatch
    | EnvironmentMismatch
    | InvalidMoney
    | EventIdConflict
    | UnknownOrder
    | OrderTermsMismatch
    | SecondSettlement
    | IntegrityError

  //// Validation of one event

  function Field(fields: map<string, Json>, key: string): Json {
    if key in fields then fields[key] else Null
  }

  predicate IsExactAmount(v: Json) {
    v.Str? && v.s != "" && forall i | 0 <= i < |v.s| :: '0' <= v.s[i] <= '9'
  }

  datatype Kind = Settled | Reorged

  datatype Payment = Payment(kind: Kind, orderId: string, amountMinor: string, currency: string)

  function ValidateIdentity(payload: map<string, Json>, cfg: Config): Option<Error> {
    if Field(payload, "schema_version") != Str("1") then Some(UnsupportedSchema)
    else if !(Field(payload, "sequence").Int? && Field(payload, "sequence").n >= 1) then Some(InvalidEvent)
    else if cfg.merchant.Some? && cfg.merchant.value != "" && Field(payload, "merchant_id") != Str(cfg.merchant.value)
    then Some(MerchantMismatch)
    else if cfg.livemode.Some? && Field(payload, "livemode") != Bool(cfg.livemode.value) then Some(EnvironmentMismatch)
    else None
  }

  /** The payment a valid event is about, if it is about one. */
  function Validate(payload: map<string, Json>, cfg: Config): Result<Option<Payment>, Error> {
    var identity := ValidateIdentity(payload, cfg);
    if identity.Some? then Err(identity.value)
    else if !Field(payload, "event_type").Str? then Err(InvalidEvent)
    else if Field(payload, "event_type").s == "payment.settled" then ValidatePayment(payload, Settled)
    else if Field(payload, "event_type").s == "payment.reorged" then ValidatePayment(payload, Reorged)
    else Ok(None)
  }

  function ValidatePayment(payload: map<string, Json>, kind: Kind): Result<Option<Payment>, Error> {
    var intent := Field(payload, "payment_intent");
    if !intent.Obj? || !Field(intent.fields, "merchant_order_id").Str? then Err(InvalidEvent)
    else if !IsExactAmount(Field(intent.fields, "amount_minor")) then Err(InvalidMoney)
    else if !Field(intent.fields, "currency").Str? || |Field(intent.fields, "currency").s| != 3 then Err(InvalidMoney)
    else
      var payment := Payment(kind, Field(intent.fields, "merchant_order_id").s,
                             Field(intent.fields, "amount_minor").s, Field(intent.fields, "currency").s);
      var status := Field(intent.fields, "status");
      match kind
      case Reorged =>
        if status == Str("reorg_review") || status == Str("reversed") then Ok(Some(payment)) else Err(InvalidEvent)
      case Settled =>
        if status != Str("settled") then Err(InvalidEvent)
        else
          var settlement := Field(payload, "settlement");
          if !settlement.Obj? || !Field(settlement.fields, "settlement_id").Str? then Err(InvalidEvent)
          else if !(&& IsExactAmount(Field(settlement.fields, "expected_raw"))
                    && IsExactAmount(Field(settlement.fields, "received_raw"))
                    && IsExactAmount(Field(settlement.fields, "credited_raw"))
                    && IsExactAmount(Field(settlement.fields, "block_height"))) then Err(InvalidMoney)
          else Ok(Some(payment))
  }

  //// What a valid event looks like

  /** The event is of the supported schema, for this merchant and this environment. */
  predicate IsOurs(payload: map<string, Json>, cfg: Config) {
    && Field(payload, "schema_version") == Str("1")
    && Field(payload, "sequence").Int? && Field(payload, "sequence").n > 0
    && (cfg.merchant.None? || cfg.merchant == Some("") || Field(payload, "merchant_id") == Str(cfg.merchant.value))
    && (cfg.livemode.None? || Field(payload, "livemode") == Bool(cfg.livemode.value))
  }

  /** One or more decimal digits, as text. */
  predicate IsUnsigned(v: Json) {
    v.Str? && |v.s| > 0 && forall c | c in v.s :: c in "0123456789"
  }

  lemma {:induction false} DigitsAreRange(c: char)
    ensures c in "0123456789" <==> '0' <= c <= '9'
  {
    var digits := "0123456789";
    if '0' <= c <= '9' {
      assert digits[c as int - '0' as int] == c;
    }
  }

  lemma {:induction false} UnsignedIsExact(v: Json)
    ensures IsExactAmount(v) <==> IsUnsigned(v)
  {
    if v.Str? {
      forall i | 0 <= i < |v.s|
        ensures v.s[i] in "0123456789" <==> '0' <= v.s[i] <= '9'
      {
        DigitsAreRange(v.s[i]);
      }
    }
  }

  /** The intent names the order, an exact amount and a currency. */
  predicate IsIntentOf(intent: Json, p: Payment) {
    && intent.Obj?
    && Field(intent.fields, "merchant_order_id") == Str(p.orderId)
    && Field(intent.fields, "amount_minor") == Str(p.amountMinor)
    && Field(intent.fields, "currency") == Str(p.currency)
    && |p.currency| == 3 && IsUnsigned(Str(p.amountMinor))
  }

  predicate IsEvidence(settlement: Json) {
    && settlement.Obj?
    && Field(settlement.fields, "settlement_id").Str?
    && forall key | key in {"expected_raw", "received_raw", "credited_raw", "block_height"} ::
         IsUnsigned(Field(settlement.fields, key))
  }

  predicate IsSettlementOf(payload: map<string, Json>, p: Payment) {
    var intent := Field(payload, "payment_intent");
    && Field(payload, "event_type") == Str("payment.settled")
    && IsIntentOf(intent, p)
    && Field(intent.fields, "status") == Str("settled")
    && IsEvidence(Field(payload, "settlement"))
  }

  predicate IsReorgOf(payload: map<string, Json>, p: Payment) {
    var intent := Field(payload, "payment_intent");
    && Field(payload, "event_type") == Str("payment.reorged")
    && IsIntentOf(intent, p)
    && Field(intent.fields, "status") in {Str("reorg_review"), Str("reversed")}
  }

  lemma {:induction false} EvidenceByField(settlement: Json)
    requires settlement.Obj?
    ensures IsEvidence(settlement) <==>
            && Field(settlement.fields, "settlement_id").Str?
            && IsExactAmount(Field(settlement.fields, "expected_raw"))
            && IsExactAmount(Field(settlement.fields, "received_raw"))
            && IsExactAmount(Field(settlement.fields, "credited_raw"))
            && IsExactAmount(Field(settlement.fields, "block_height"))
  {
    UnsignedIsExact(Field(settlement.fields, "expected_raw"));
    UnsignedIsExact(Field(settlement.fields, "received_raw"));
    UnsignedIsExact(Field(settlement.fields, "credited_raw"));
    UnsignedIsExact(Field(settlement.fields, "block_height"));
  }

  lemma {:induction false} SettledExactly(payload: map<string, Json>, p: Payment)
    requires p.kind == Settled && Field(payload, "event_type") == Str("payment.settled")
    ensures ValidatePayment(payload, Settled) == Ok(Some(p)) <==> IsSettlementOf(payload, p)
  {
    UnsignedIsExact(Str(p.amountMinor));
    if Field(payload, "settlement").Obj? {
      EvidenceByField(Field(payload, "settlement"));
    }
  }

  lemma {:induction false} ReorgedExactly(payload: map<string, Json>, p: Payment)
    requires p.kind == Reorged && Field(payload, "event_type") == Str("payment.reorged")
    ensures ValidatePayment(payload, Reorged) == Ok(Some(p)) <==> IsReorgOf(payload, p)
  {
    UnsignedIsExact(Str(p.amountMinor));
  }

  /** What a payment event of either kind must say. */
  predicate IsPaymentOf(payload: map<string, Json>, p: Payment) {
    if p.kind == Settled then IsSettlementOf(payload, p) else IsReorgOf(payload, p)
  }

  lemma {:induction false} PaymentHasItsKind(payload: map<string, Json>, kind: Kind)
    ensures ValidatePayment(payload, kind).Ok? ==>
              ValidatePayment(payload, kind).value.Some? && ValidatePayment(payload, kind).value.value.kind == kind
  {
  }

  lemma {:induction false} IdentityExactly(payload: map<string, Json>, cfg: Config)
    ensures ValidateIdentity(payload, cfg).None? <==> IsOurs(payload, cfg)
  {
  }

  /** An event moves an order exactly when it is ours and is a complete settlement or reorg of that order. */
  lemma {:induction false} ValidatedExactly(payload: map<string, Json>, cfg: Config, p: Payment)
    ensures Validate(payload, cfg) == Ok(Some(p)) <==> IsOurs(payload, cfg) && IsPaymentOf(payload, p)
    ensures Validate(payload, cfg) == Ok(None) <==>
            && IsOurs(payload, cfg) && Field(payload, "event_type").Str?
            && Field(payload, "event_type").s !in {"payment.settled", "payment.reorged"}
  {
    IdentityExactly(payload, cfg);
    PaymentHasItsKind(payload, Settled);
    PaymentHasItsKind(payload, Reorged);
    if Field(payload, "event_type") == Str("payment.settled") && p.kind == Settled {
      SettledExactly(payload, p);
    } else if Field(payload, "event_type") == Str("payment.reorged") && p.kind == Reorged {
      ReorgedExactly(payload, p);
    }
  }

  //// Why an event is rejected

  predicate IsSequenced(payload: map<string, Json>) {
    Field(payload, "sequence").Int? && Field(payload, "sequence").n > 0
  }

  predicate IsForMerchant(payload: map<string, Json>, cfg: Config) {
    cfg.merchant.None? || cfg.merchant == Some("") || Field(payload, "merchant_id") == Str(cfg.merchant.value)
  }

  /** The intent names an order, and an amount or a currency in it, or a number in the evidence, is not exact. */
  predicate HasInexactMoney(payload: map<string, Json>) {
    var intent, settlement := Field(payload, "payment_intent"), Field(payload, "settlement");
    && intent.Obj? && Field(intent.fields, "merchant_order_id").Str?
    && (|| !IsUnsigned(Field(intent.fields, "amount_minor"))
        || !Field(intent.fields, "currency").Str? || |Field(intent.fields, "currency").s| != 3
        || (&& Field(payload, "event_type") == Str("payment.settled")
            && Field(intent.fields, "status") == Str("settled")
            && settlement.Obj? && Field(settlement.fields, "settlement_id").Str? && !IsEvidence(settlement)))
  }

  lemma {:induction false} MoneyErrors(payload: map<string, Json>, kind: Kind)
    requires Field(payload, "event_type") == Str(if kind == Settled then "payment.settled" else "payment.reorged")
    ensures ValidatePayment(payload, kind) == Err(InvalidMoney) <==> HasInexactMoney(payload)
    ensures ValidatePayment(payload, kind).Err? ==> ValidatePayment(payload, kind).error in {InvalidMoney, InvalidEvent}
  {
    var intent, settlement := Field(payload, "payment_intent"), Field(payload, "settlement");
    if intent.Obj? {
      UnsignedIsExact(Field(intent.fields, "amount_minor"));
    }
    if settlement.Obj? {
      EvidenceByField(settlement);
    }
  }

  /** Which error a rejected event gets: the first of schema, sequence, merchant, environment, identity and money. */
  lemma {:induction false} RejectedExactly(payload: map<string, Json>, cfg: Config)
    ensures var r, schema := Validate(payload, cfg), Field(payload, "schema_version") == Str("1");
            var payment := Field(payload, "event_type") in {Str("payment.settled"), Str("payment.reorged")};
            && (r == Err(UnsupportedSchema) <==> !schema)
            && (r == Err(MerchantMismatch) <==> schema && IsSequenced(payload) && !IsForMerchant(payload, cfg))
            && (r == Err(EnvironmentMismatch) <==>
                schema && IsSequenced(payload) && IsForMerchant(payload, cfg) && !IsOurs(payload, cfg))
            && (r == Err(InvalidMoney) <==> IsOurs(payload, cfg) && payment && HasInexactMoney(payload))
            && (r.Err? ==> r.error in {UnsupportedSchema, MerchantMismatch, EnvironmentMismatch, InvalidMoney, InvalidEvent})
  {
    IdentityExactly(payload, cfg);
    if Field(payload, "event_type") == Str("payment.settled") {
      MoneyErrors(payload, Settled);
    } else if Field(payload, "event_type") == Str("payment.reorged") {
      MoneyErrors(payload, Reorged);
    }
  }

  /** A webhook after validation: what the transaction gets to see of it, and when. */
  datatype Delivery = Delivery(eventId: string, digest: string, verdict: Result<Option<Payment>, Error>, now: int)

  function Checked(w: Webhook, cfg: Config, now: int): Delivery {
    Delivery(w.eventId, w.digest, Validate(w.payload, cfg), now)
  }

  //// Tables

  datatype OrderState = AwaitingPayment | Paid | Fulfilled | ReorgReview | Cancelled

  datatype Order = Order(amountMinor: string, currency: string, state: OrderState, settlement: Option<string>)

  datatype Acknowledgement = Acknowledgement(eventId: string)

  datatype InboxRow = InboxRow(digest: string, acknowledgement: Acknowledgement, receivedAt: int)

  datatype Operation = Fulfill | Review

  datatype OutboxRow = OutboxRow(id: nat, eventId: string, orderId: string, operation: Operation, createdAt: int)

  datatype Tables = Tables(orders: map<string, Order>, inbox: map<string, InboxRow>, outbox: seq<OutboxRow>)

  datatype Reply = Reply(acknowledgement: Acknowledgement, duplicate: bool)

  /** The UNIQUE constraint on orders.settlement_event_id. */
  predicate SettlementFree(orders: map<string, Order>, eventId: string, orderId: string) {
    forall o | o in orders && o != orderId :: orders[o].settlement != Some(eventId)
  }

  /** The UNIQUE constraint on fulfillment_outbox.event_id. */
  predicate OutboxFree(outbox: seq<OutboxRow>, eventId: string) {
    forall k | 0 <= k < |outbox| :: outbox[k].eventId != eventId
  }

  ghost predicate HaveUniqueSettlements(orders: map<string, Order>) {
    forall o, o' | o in orders && o' in orders && o != o' && orders[o].settlement.Some? ::
      orders[o].settlement != orders[o'].settlement
  }

  ghost predicate HaveUniqueEvents(outbox: seq<OutboxRow>) {
    forall k, l | 0 <= k < l < |outbox| :: outbox[k].eventId != outbox[l].eventId
  }

  /** The first test refuses exactly the updates after which two orders would share a settlement id. */
  lemma {:induction false} SettlementConstraint(orders: map<string, Order>, eventId: string, orderId: string)
    requires HaveUniqueSettlements(orders) && orderId in orders
    ensures SettlementFree(orders, eventId, orderId)
       <==> HaveUniqueSettlements(orders[orderId := Updated(orders[orderId], Settled, eventId)])
  {
    var after := orders[orderId := Updated(orders[orderId], Settled, eventId)];
    if !SettlementFree(orders, eventId, orderId) {
      var o :| o in orders && o != orderId && orders[o].settlement == Some(eventId);
      assert after[o].settlement == after[orderId].settlement;
    }
  }

  /** The second refuses exactly the inserts after which two rows would share an event id. */
  lemma {:induction false} OutboxConstraint(outbox: seq<OutboxRow>, row: OutboxRow)
    requires HaveUniqueEvents(outbox)
    ensures OutboxFree(outbox, row.eventId) <==> HaveUniqueEvents(outbox + [row])
  {
    var after := outbox + [row];
    assert after[|outbox|] == row && forall k | 0 <= k < |outbox| :: after[k] == outbox[k];
    if HaveUniqueEvents(after) {
      forall k | 0 <= k < |outbox|
        ensures outbox[k].eventId != row.eventId
      {
        assert after[k].eventId != after[|outbox|].eventId;
      }
    }
  }

  function OperationOf(kind: Kind): Operation {
    match kind
    case Settled => Fulfill
    case Reorged => Review
  }

  function Updated(order: Order, kind: Kind, eventId: string): Order {
    match kind
    case Settled => order.(state := Paid, settlement := Some(eventId))
    case Reorged => order.(state := ReorgReview)
  }

  /** The error that stops a payment event on these tables, if any; `p` is what the event says. */
  function PaymentError(t: Tables, eventId: string, p: Payment): Option<Error> {
    if p.orderId !in t.orders then Some(UnknownOrder)
    else
      var order := t.orders[p.orderId];
      if order.amountMinor != p.amountMinor || order.currency != p.currency then Some(OrderTermsMismatch)
      else if && p.kind == Settled && order.settlement.Some? && order.settlement.value != ""
              && order.settlement.value != eventId then Some(SecondSettlement)
      else if p.kind == Settled && !SettlementFree(t.orders, eventId, p.orderId) then Some(IntegrityError)
      else if !OutboxFree(t.outbox, eventId) then Some(IntegrityError)
      else None
  }

  /** One delivery: what the tables become and what the sender is told. */
  function Deliver(t: Tables, d: Delivery): (Tables, Result<Reply, Error>) {
    if d.verdict.Err? then (t, Err(d.verdict.error))
    else if d.eventId in t.inbox then
      if t.inbox[d.eventId].digest != d.digest then (t, Err(EventIdConflict))
      else (t, Ok(Reply(t.inbox[d.eventId].acknowledgement, true)))
    else
      var error := if d.verdict.value.Some? then PaymentError(t, d.eventId, d.verdict.value.value) else None;
      if error.Some? then (t, Err(error.value))
      else (Accept(t, d), Ok(Reply(Acknowledgement(d.eventId), false)))
  }

  /** The tables after an accepted event. */
  function Accept(t: Tables, d: Delivery): Tables
    requires d.verdict.Ok?
  {
    var inbox := t.inbox[d.eventId := InboxRow(d.digest, Acknowledgement(d.eventId), d.now)];
    match d.verdict.value
    case None => t.(inbox := inbox)
    case Some(p) =>
      Tables(
        if p.orderId in t.orders then t.orders[p.orderId := Updated(t.orders[p.orderId], p.kind, d.eventId)] else t.orders,
        inbox,
        t.outbox + [OutboxRow(|t.outbox| + 1, d.eventId, p.orderId, OperationOf(p.kind), d.now)])
  }

  //// The database object

  class Database {
    var orders: map<string, Order>
    var inbox: map<string, InboxRow>
    var outbox: seq<OutboxRow>

    constructor (orders: map<string, Order>)
      ensures Contents() == Tables(orders, map[], [])
    {
      this.orders, inbox, outbox := orders, map[], [];
    }

    function Contents(): Tables
      reads this
    {
      Tables(orders, inbox, outbox)
    }

    /** UPDATE orders SET state, and settlement_event_id for a settlement. */
    method UpdateOrder(orderId: string, kind: Kind, eventId: string) returns (ok: bool)
      requires orderId in orders
      modifies this`orders
      ensures ok <==> kind == Reorged || SettlementFree(old(orders), eventId, orderId)
      ensures orders == if ok then old(orders)[orderId := Updated(old(orders)[orderId], kind, eventId)] else old(orders)
    {
      ok := kind == Reorged || SettlementFree(orders, eventId, orderId);
      if ok {
        orders := orders[orderId := Updated(orders[orderId], kind, eventId)];
      }
    }

    /** INSERT INTO fulfillment_outbox, with the next autoincrement id. */
    method InsertOutbox(eventId: string, orderId: string, operation: Operation, now: int) returns (ok: bool)
      modifies this`outbox
      ensures ok <==> OutboxFree(old(outbox), eventId) && orderId in orders
      ensures outbox == if ok then old(outbox) + [OutboxRow(|old(outbox)| + 1, eventId, orderId, operation, now)]
                              else old(outbox)
    {
      ok := OutboxFree(outbox, eventId) && orderId in orders;
      if ok {
        outbox := outbox + [OutboxRow(|outbox| + 1, eventId, orderId, operation, now)];
      }
    }

    /** The statements between BEGIN and COMMIT for an event that is not in the inbox. */
    method Statements(d: Delivery) returns (error: Option<Error>)
      requires d.eventId !in inbox && d.verdict.Ok?
      modifies this
      ensures error == if d.verdict.value.Some? then PaymentError(old(Contents()), d.eventId, d.verdict.value.value) else None
      ensures error.None? ==> Contents() == Accept(old(Contents()), d)
    {
      if d.verdict.value.Some? {
        var p := d.verdict.value.value;
        if p.orderId !in orders {
          return Some(UnknownOrder);
        }
        if orders[p.orderId].amountMinor != p.amountMinor || orders[p.orderId].currency != p.currency {
          return Some(OrderTermsMismatch);
        }
        if p.kind == Settled {
          var previous := orders[p.orderId].settlement;
          if previous.Some? && previous.value != "" && previous.value != d.eventId {
            return Some(SecondSettlement);
          }
        }
        var updated := UpdateOrder(p.orderId, p.kind, d.eventId);
        if !updated {
          return Some(IntegrityError);
        }
        var inserted := InsertOutbox(d.eventId, p.orderId, OperationOf(p.kind), d.now);
        if !inserted {
          return Some(IntegrityError);
        }
      }
      inbox := inbox[d.eventId := InboxRow(d.digest, Acknowledgement(d.eventId), d.now)];
      error := None;
    }

    method ApplyVerifiedEvent(w: Webhook, cfg: Config, now: int) returns (r: Result<Reply, Error>)
      modifies this
      ensures (Contents(), r) == Deliver(old(Contents()), Checked(w, cfg, now))
    {
      var valid := Validate(w.payload, cfg);
      if valid.Err? {
        return Err(valid.error);
      }
      if w.eventId in inbox {
        if inbox[w.eventId].digest != w.digest {
          return Err(EventIdConflict);
        }
        return Ok(Reply(inbox[w.eventId].acknowledgement, true));
      }
      var savedOrders, savedInbox, savedOutbox := orders, inbox, outbox;
      var error := Statements(Delivery(w.eventId, w.digest, valid, now));
      if error.Some? {
        orders, inbox, outbox := savedOrders, savedInbox, savedOutbox;
        return Err(error.value);
      }
      r := Ok(Reply(Acknowledgement(w.eventId), false));
    }
  }
}
