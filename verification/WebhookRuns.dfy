/**
 What the webhook tables keep over every sequence of deliveries, in particular under redelivery:
 each order is fulfilled at most once and a repeat changes nothing.
 */
module WebhookRuns {
  import opened Prelude
  import opened WebhookInbox

  /** The tables after all deliveries. */
  function Final(t: Tables, ds: seq<Delivery>): Tables {
    if ds == [] then t
    else Deliver(Final(t, ds[..|ds| - 1]), ds[|ds| - 1]).0
  }

  /** The reply to delivery number `i`. */
  function ReplyAt(t: Tables, ds: seq<Delivery>, i: nat): Result<Reply, Error>
    requires i < |ds|
  {
    Deliver(Final(t, ds[..i]), ds[i]).1
  }

  lemma {:induction false} FinalStep(t: Tables, ds: seq<Delivery>, i: nat)
    requires i < |ds|
    ensures Final(t, ds[..i + 1]) == Deliver(Final(t, ds[..i]), ds[i]).0
  {
    assert ds[..i + 1][..i] == ds[..i];
  }

  //// Rejections and redeliveries

  /** A rejected delivery, whatever the reason, and a duplicate both leave every table as it was. */
  lemma {:induction false} OnlyAcceptanceWrites(t: Tables, d: Delivery)
    ensures var (t', r) := Deliver(t, d);
            && (t' != t ==> r.Ok? && !r.value.duplicate)
            && (r.Ok? && !r.value.duplicate ==> d.eventId !in t.inbox && d.eventId in t'.inbox)
            && (d.eventId in t.inbox && t.inbox[d.eventId].digest != d.digest ==> r.Err? && t' == t)
            && (r.Ok? && !r.value.duplicate && PaymentOf(d).Some? ==>
                  var p := PaymentOf(d).value;
                  && p.orderId in t.orders
                  && t.orders[p.orderId].amountMinor == p.amountMinor
                  && t.orders[p.orderId].currency == p.currency)
  {
  }

  predicate SameBody(a: Delivery, b: Delivery) {
    a.eventId == b.eventId && a.digest == b.digest && a.verdict == b.verdict
  }

  predicate Stored(t: Tables, d: Delivery, ack: Acknowledgement) {
    d.eventId in t.inbox && t.inbox[d.eventId].digest == d.digest && t.inbox[d.eventId].acknowledgement == ack
  }

  /** What was acknowledged once stays in the inbox, with its acknowledgement. */
  lemma {:induction false} StaysStored(t: Tables, ds: seq<Delivery>, j: nat, i: nat)
    requires j < i <= |ds| && ReplyAt(t, ds, j).Ok?
    ensures Stored(Final(t, ds[..i]), ds[j], ReplyAt(t, ds, j).value.acknowledgement)
    decreases i
  {
    FinalStep(t, ds, i - 1);
    if j < i - 1 {
      StaysStored(t, ds, j, i - 1);
    }
  }

  /** A delivery of a run, marked when it repeats an earlier one. */
  datatype Marked = Marked(delivery: Delivery, repeat: bool)

  function All(ms: seq<Marked>): (ds: seq<Delivery>)
    ensures |ds| == |ms| && forall i | 0 <= i < |ms| :: ds[i] == ms[i].delivery
  {
    seq(|ms|, i requires 0 <= i < |ms| => ms[i].delivery)
  }

  function Originals(ms: seq<Marked>): seq<Delivery> {
    if ms == [] then []
    else
      var rest := Originals(ms[..|ms| - 1]);
      if ms[|ms| - 1].repeat then rest else rest + [ms[|ms| - 1].delivery]
  }

  /** Every marked delivery has the body of an earlier delivery that was acknowledged. */
  ghost predicate RepeatsOnly(t: Tables, ms: seq<Marked>) {
    forall i | 0 <= i < |ms| && ms[i].repeat :: exists j :: Repeats(t, All(ms), j, i)
  }

  predicate Repeats(t: Tables, ds: seq<Delivery>, j: nat, i: nat) {
    j < i < |ds| && SameBody(ds[j], ds[i]) && ReplyAt(t, ds, j).Ok?
  }

  lemma {:induction false} RepeatIsAcknowledged(t: Tables, ds: seq<Delivery>, j: nat, i: nat)
    requires Repeats(t, ds, j, i)
    ensures ReplyAt(t, ds, i) == Ok(Reply(ReplyAt(t, ds, j).value.acknowledgement, true))
    ensures Final(t, ds[..i + 1]) == Final(t, ds[..i])
  {
    StaysStored(t, ds, j, i);
    FinalStep(t, ds, i);
  }

  /** Redelivering acknowledged events, any number of times and at any later points, gives the same tables. */
  lemma {:induction false} RepeatsChangeNothing(t: Tables, ms: seq<Marked>)
    requires RepeatsOnly(t, ms)
    ensures Final(t, All(ms)) == Final(t, Originals(ms))
    ensures forall j: nat, i: nat | Repeats(t, All(ms), j, i) ::
              ReplyAt(t, All(ms), i) == Ok(Reply(ReplyAt(t, All(ms), j).value.acknowledgement, true))
  {
    forall j: nat, i: nat | Repeats(t, All(ms), j, i)
      ensures ReplyAt(t, All(ms), i) == Ok(Reply(ReplyAt(t, All(ms), j).value.acknowledgement, true))
    {
      RepeatIsAcknowledged(t, All(ms), j, i);
    }
    if ms != [] {
      var n := |ms| - 1;
      var front := ms[..n];
      assert All(front) == All(ms)[..n];
      RepeatsOnlyPrefix(t, ms);
      RepeatsChangeNothing(t, front);
      if ms[n].repeat {
        var j: nat :| Repeats(t, All(ms), j, n);
        RepeatIsAcknowledged(t, All(ms), j, n);
        assert All(ms)[..n + 1] == All(ms);
      } else {
        assert Originals(ms)[..|Originals(ms)| - 1] == Originals(front);
      }
    }
  }

  lemma {:induction false} RepeatsOnlyPrefix(t: Tables, ms: seq<Marked>)
    requires ms != [] && RepeatsOnly(t, ms)
    ensures RepeatsOnly(t, ms[..|ms| - 1])
  {
    var front := ms[..|ms| - 1];
    forall i | 0 <= i < |front| && front[i].repeat
      ensures exists j :: Repeats(t, All(front), j, i)
    {
      var j: nat :| Repeats(t, All(ms), j, i);
      assert All(front)[..j] == All(ms)[..j];
      assert Repeats(t, All(front), j, i);
    }
  }

  //// Exactly-once fulfilment

  /** Orders nobody has paid and empty inbox and outbox. */
  predicate IsFresh(t: Tables) {
    && t.inbox == map[] && t.outbox == []
    && forall o | o in t.orders :: t.orders[o].state == AwaitingPayment && t.orders[o].settlement.None?
  }

  predicate AtMostOneFulfill(t: Tables) {
    forall k, l | 0 <= k < |t.outbox| && 0 <= l < |t.outbox|
               && t.outbox[k].operation == Fulfill && t.outbox[l].operation == Fulfill
               && t.outbox[k].orderId == t.outbox[l].orderId :: k == l
  }

  predicate IsFulfillment(t: Tables, k: int, orderId: string, eventId: string) {
    0 <= k < |t.outbox| && t.outbox[k].operation == Fulfill && t.outbox[k].orderId == orderId && t.outbox[k].eventId == eventId
  }

  /** The outbox and the orders tell the same story. */
  ghost predicate Consistent(t: Tables) {
    // event ids of the outbox are distinct, in the inbox, and the rows are numbered from 1
    && (forall k, l | 0 <= k < l < |t.outbox| :: t.outbox[k].eventId != t.outbox[l].eventId)
    && (forall k | 0 <= k < |t.outbox| ::
          t.outbox[k].id == k + 1 && t.outbox[k].eventId in t.inbox && t.outbox[k].orderId in t.orders)
    // a settlement id is set exactly when the order's fulfill row with that id exists
    && (forall k | 0 <= k < |t.outbox| && t.outbox[k].operation == Fulfill ::
          t.orders[t.outbox[k].orderId].settlement == Some(t.outbox[k].eventId))
    && (forall o | o in t.orders && t.orders[o].settlement.Some? ::
          exists k :: IsFulfillment(t, k, o, t.orders[o].settlement.value))
  }

  lemma {:induction false} ConsistentFulfillsOnce(t: Tables)
    requires Consistent(t)
    ensures AtMostOneFulfill(t)
    ensures forall o, e | o in t.orders ::
              t.orders[o].settlement == Some(e) <==> exists k :: IsFulfillment(t, k, o, e)
  {
  }

  /** A new settlement with the order's own terms, for an order whose stored settlement id is the empty text. */
  predicate SettlesAgain(t: Tables, d: Delivery) {
    && d.eventId !in t.inbox
    && PaymentOf(d).Some?
    && var p := PaymentOf(d).value;
    && p.kind == Settled
    && p.orderId in t.orders
    && t.orders[p.orderId].amountMinor == p.amountMinor
    && t.orders[p.orderId].currency == p.currency
    && t.orders[p.orderId].settlement == Some("")
  }

  /** On consistent tables no constraint stops a new event. */
  lemma {:induction false} NewIdIsFree(t: Tables, d: Delivery, p: Payment)
    requires Consistent(t) && d.eventId !in t.inbox
    ensures OutboxFree(t.outbox, d.eventId)
    ensures SettlementFree(t.orders, d.eventId, p.orderId)
    ensures PaymentError(t, d.eventId, p) != Some(IntegrityError)
  {
  }

  lemma {:induction false} OtherEventKeepsConsistent(t: Tables, d: Delivery)
    requires Consistent(t) && d.verdict == Ok(None)
    ensures Consistent(Accept(t, d)) && AtMostOneFulfill(Accept(t, d))
  {
    var t' := Accept(t, d);
    assert forall k, o, e :: IsFulfillment(t, k, o, e) ==> IsFulfillment(t', k, o, e);
    ConsistentFulfillsOnce(t);
  }

  //// Which deliveries are accepted

  /** The order exists, and the payment names its amount and currency. */
  predicate HasTerms(orders: map<string, Order>, p: Payment) {
    && p.orderId in orders
    && orders[p.orderId].amountMinor == p.amountMinor
    && orders[p.orderId].currency == p.currency
  }

  /** The order already has a settlement with a non-empty id. */
  predicate IsTaken(orders: map<string, Order>, o: string) {
    o in orders && orders[o].settlement.Some? && orders[o].settlement.value != ""
  }

  /** Any reorg, and the first settlement. */
  predicate IsWelcome(orders: map<string, Order>, p: Payment) {
    HasTerms(orders, p) && (p.kind == Reorged || !IsTaken(orders, p.orderId))
  }

  /** On consistent tables: which deliveries are accepted, and what every other one is told. */
  lemma {:induction false} AcceptedExactly(t: Tables, d: Delivery)
    requires Consistent(t)
    ensures var r := Deliver(t, d).1;
            && (d.verdict.Err? ==> r == Err(d.verdict.error))
            && (d.verdict.Ok? && d.eventId in t.inbox ==>
                  r == if t.inbox[d.eventId].digest == d.digest
                       then Ok(Reply(t.inbox[d.eventId].acknowledgement, true)) else Err(EventIdConflict))
            && (d.verdict == Ok(None) && d.eventId !in t.inbox ==> r == Ok(Reply(Acknowledgement(d.eventId), false)))
            && (d.verdict.Ok? && d.verdict.value.Some? && d.eventId !in t.inbox ==>
                  var p := d.verdict.value.value;
                  r == if IsWelcome(t.orders, p) then Ok(Reply(Acknowledgement(d.eventId), false))
                       else if p.orderId !in t.orders then Err(UnknownOrder)
                       else if !HasTerms(t.orders, p) then Err(OrderTermsMismatch)
                       else Err(SecondSettlement))
  {
    if d.verdict.Ok? && d.verdict.value.Some? && d.eventId !in t.inbox {
      NewIdIsFree(t, d, d.verdict.value.value);
      NewIdIsNoSettlement(t, d.eventId);
    }
  }

  lemma {:induction false} NewIdIsNoSettlement(t: Tables, eventId: string)
    requires Consistent(t) && eventId !in t.inbox
    ensures forall o | o in t.orders :: t.orders[o].settlement != Some(eventId)
  {
  }

  /** One delivery keeps the tables consistent, and each order fulfilled at most once, unless it settles again. */
  lemma {:induction false} DeliverKeepsConsistent(t: Tables, d: Delivery)
    requires Consistent(t)
    ensures var t' := Deliver(t, d).0;
            && (Consistent(t') <==> !SettlesAgain(t, d))
            && (AtMostOneFulfill(t') <==> !SettlesAgain(t, d))
    // the UNIQUE and foreign key constraints never stop an event on consistent tables
    ensures d.verdict.Ok? ==> Deliver(t, d).1 != Err(IntegrityError)
  {
    ConsistentFulfillsOnce(t);
    if d.verdict.Ok? && d.eventId !in t.inbox {
      if d.verdict.value.None? {
        OtherEventKeepsConsistent(t, d);
      } else {
        var p := d.verdict.value.value;
        NewIdIsFree(t, d, p);
        PaymentKeepsConsistent(t, d, p);
      }
    }
  }

  lemma {:induction false} PaymentKeepsConsistent(t: Tables, d: Delivery, p: Payment)
    requires Consistent(t) && AtMostOneFulfill(t) && d.verdict == Ok(Some(p)) && d.eventId !in t.inbox
    requires OutboxFree(t.outbox, d.eventId) && SettlementFree(t.orders, d.eventId, p.orderId)
    ensures var t' := Deliver(t, d).0;
            && (Consistent(t') <==> !SettlesAgain(t, d))
            && (AtMostOneFulfill(t') <==> !SettlesAgain(t, d))
  {
    if PaymentError(t, d.eventId, p).None? {
      AcceptedPayment(t, d, p);
    }
  }

  predicate IsAcceptable(t: Tables, d: Delivery, p: Payment) {
    d.verdict == Ok(Some(p)) && d.eventId !in t.inbox && PaymentError(t, d.eventId, p).None?
  }

  lemma {:induction false} OldRowsStay(t: Tables, d: Delivery, p: Payment)
    requires IsAcceptable(t, d, p)
    ensures forall k, o, e | IsFulfillment(t, k, o, e) :: IsFulfillment(Accept(t, d), k, o, e)
    ensures p.kind == Settled ==> IsFulfillment(Accept(t, d), |t.outbox|, p.orderId, d.eventId)
  {
  }

  lemma {:induction false} ReorgKeepsConsistent(t: Tables, d: Delivery, p: Payment)
    requires IsAcceptable(t, d, p) && Consistent(t) && p.kind == Reorged
    ensures Consistent(Accept(t, d))
  {
    OldRowsStay(t, d, p);
  }

  lemma {:induction false} FirstSettlementKeepsConsistent(t: Tables, d: Delivery, p: Payment)
    requires IsAcceptable(t, d, p) && Consistent(t) && p.kind == Settled && t.orders[p.orderId].settlement != Some("")
    ensures Consistent(Accept(t, d))
  {
    OldRowsStay(t, d, p);
    NewIdIsNoSettlement(t, d.eventId);
  }

  lemma {:induction false} SecondSettlementIsFulfilled(t: Tables, d: Delivery, p: Payment)
    requires IsAcceptable(t, d, p) && Consistent(t) && p.kind == Settled && t.orders[p.orderId].settlement == Some("")
    ensures !AtMostOneFulfill(Accept(t, d))
  {
    OldRowsStay(t, d, p);
    var k :| IsFulfillment(t, k, p.orderId, "");
    assert IsFulfillment(Accept(t, d), k, p.orderId, "");
  }

  lemma {:induction false} AcceptedPayment(t: Tables, d: Delivery, p: Payment)
    requires d.verdict == Ok(Some(p))
    requires Consistent(t) && d.eventId !in t.inbox && PaymentError(t, d.eventId, p).None?
    ensures var t' := Accept(t, d);
            var again := p.kind == Settled && t.orders[p.orderId].settlement == Some("");
            && (Consistent(t') <==> !again)
            && (AtMostOneFulfill(t') <==> !again)
  {
    var t' := Accept(t, d);
    if p.kind == Reorged {
      ReorgKeepsConsistent(t, d, p);
    } else if t.orders[p.orderId].settlement == Some("") {
      SecondSettlementIsFulfilled(t, d, p);
    } else {
      FirstSettlementKeepsConsistent(t, d, p);
    }
    if Consistent(t') {
      ConsistentFulfillsOnce(t');
    }
  }

  //// Whole runs

  /** The payment a delivery is about; `None` for other valid events and for invalid ones. */
  function PaymentOf(d: Delivery): Option<Payment> {
    if d.verdict.Ok? then d.verdict.value else None
  }

  /** The deliveries that were accepted for the first time, in order. */
  function Log(t: Tables, ds: seq<Delivery>): seq<Delivery> {
    if ds == [] then []
    else
      var n := |ds| - 1;
      var r := Deliver(Final(t, ds[..n]), ds[n]).1;
      Log(t, ds[..n]) + if r.Ok? && !r.value.duplicate then [ds[n]] else []
  }

  predicate Accounts(row: OutboxRow, d: Delivery) {
    && PaymentOf(d).Some?
    && row.eventId == d.eventId && row.createdAt == d.now
    && row.orderId == PaymentOf(d).value.orderId
    && row.operation == OperationOf(PaymentOf(d).value.kind)
  }

  /** The inbox holds one row per accepted delivery and nothing else. */
  ghost predicate InboxIsLog(inbox: map<string, InboxRow>, log: seq<Delivery>) {
    && HaveDistinctIds(log)
    && (forall k | 0 <= k < |log| ::
          && log[k].eventId in inbox
          && inbox[log[k].eventId] == InboxRow(log[k].digest, Acknowledgement(log[k].eventId), log[k].now))
    && inbox.Keys == set k | 0 <= k < |log| :: log[k].eventId
  }

  /** Orders are never added or removed and never change their terms. */
  ghost predicate SameTerms(orders0: map<string, Order>, orders: map<string, Order>) {
    && orders.Keys == orders0.Keys
    && forall o | o in orders ::
         orders[o].amountMinor == orders0[o].amountMinor && orders[o].currency == orders0[o].currency
  }

  /** The payments of a log, as outbox rows. */
  function Rows(log: seq<Delivery>): seq<OutboxRow> {
    if log == [] then []
    else
      var rest := Rows(log[..|log| - 1]);
      var d := log[|log| - 1];
      match PaymentOf(d)
      case None => rest
      case Some(p) => rest + [OutboxRow(|rest| + 1, d.eventId, p.orderId, OperationOf(p.kind), d.now)]
  }

  /** Every run with non-empty ids keeps the tables consistent, so each order is fulfilled at most once. */
  lemma {:induction false} RunsFulfillOnce(t0: Tables, ds: seq<Delivery>)
    requires IsFresh(t0)
    requires forall i | 0 <= i < |ds| :: ds[i].eventId != ""
    ensures Consistent(Final(t0, ds)) && AtMostOneFulfill(Final(t0, ds))
    ensures NoEmptySettlement(Final(t0, ds))
  {
    if ds != [] {
      var n := |ds| - 1;
      RunsFulfillOnce(t0, ds[..n]);
      DeliverKeepsConsistent(Final(t0, ds[..n]), ds[n]);
      DeliverSettlesNoneEmpty(Final(t0, ds[..n]), ds[n]);
    }
  }

  predicate NeverSettlesAgain(t0: Tables, ds: seq<Delivery>) {
    var n := |ds| - 1;
    ds == [] || (NeverSettlesAgain(t0, ds[..n]) && !SettlesAgain(Final(t0, ds[..n]), ds[n]))
  }

  lemma {:induction false} DeliverKeepsRows(t: Tables, d: Delivery)
    ensures t.outbox <= Deliver(t, d).0.outbox
    ensures AtMostOneFulfill(Deliver(t, d).0) ==> AtMostOneFulfill(t)
  {
    var after := Deliver(t, d).0;
    if AtMostOneFulfill(after) {
      forall k, l | 0 <= k < |t.outbox| && 0 <= l < |t.outbox|
                 && t.outbox[k].operation == Fulfill && t.outbox[l].operation == Fulfill
                 && t.outbox[k].orderId == t.outbox[l].orderId
        ensures k == l
      {
        assert after.outbox[k] == t.outbox[k] && after.outbox[l] == t.outbox[l];
      }
    }
  }

  /** Every run, whatever its ids: orders are fulfilled at most once exactly when no delivery settles one again. */
  lemma {:induction false} RunsFulfillOnceExactly(t0: Tables, ds: seq<Delivery>)
    requires IsFresh(t0)
    ensures AtMostOneFulfill(Final(t0, ds)) <==> NeverSettlesAgain(t0, ds)
    ensures NeverSettlesAgain(t0, ds) ==> Consistent(Final(t0, ds))
  {
    if ds != [] {
      var n := |ds| - 1;
      RunsFulfillOnceExactly(t0, ds[..n]);
      DeliverKeepsRows(Final(t0, ds[..n]), ds[n]);
      if NeverSettlesAgain(t0, ds[..n]) {
        DeliverKeepsConsistent(Final(t0, ds[..n]), ds[n]);
      }
    }
  }

  predicate NoEmptySettlement(t: Tables) {
    forall o | o in t.orders :: t.orders[o].settlement != Some("")
  }

  lemma {:induction false} DeliverSettlesNoneEmpty(t: Tables, d: Delivery)
    requires NoEmptySettlement(t) && d.eventId != ""
    ensures NoEmptySettlement(Deliver(t, d).0) && !SettlesAgain(t, d)
  {
  }

  /** Every run: the inbox and the outbox are the accepted deliveries, and the order terms are those of `t0`. */
  lemma {:induction false} RunsKeepJournal(t0: Tables, ds: seq<Delivery>)
    requires IsFresh(t0)
    ensures InboxIsLog(Final(t0, ds).inbox, Log(t0, ds))
    ensures Final(t0, ds).outbox == Rows(Log(t0, ds))
    ensures SameTerms(t0.orders, Final(t0, ds).orders)
  {
    if ds != [] {
      var n := |ds| - 1;
      RunsKeepJournal(t0, ds[..n]);
      var t := Final(t0, ds[..n]);
      DeliverKeepsInbox(t, Log(t0, ds[..n]), ds[n]);
      DeliverKeepsOutbox(t0, t, Log(t0, ds[..n]), ds[n]);
    }
  }

  /** The kind of the last accepted payment event of an order. */
  function LastKind(log: seq<Delivery>, o: string): Option<Kind> {
    if log == [] then None
    else
      var p := PaymentOf(log[|log| - 1]);
      if p.Some? && p.value.orderId == o then Some(p.value.kind) else LastKind(log[..|log| - 1], o)
  }

  function StateAfter(last: Option<Kind>): OrderState {
    match last
    case None => AwaitingPayment
    case Some(Settled) => Paid
    case Some(Reorged) => ReorgReview
  }

  lemma {:induction false} DeliverTracksOrder(t: Tables, log: seq<Delivery>, d: Delivery, o: string)
    requires o in t.orders && t.orders[o].state == StateAfter(LastKind(log, o))
    ensures var (t', r) := Deliver(t, d);
            var log' := log + if r.Ok? && !r.value.duplicate then [d] else [];
            o in t'.orders && t'.orders[o].state == StateAfter(LastKind(log', o))
  {
    assert (log + [d])[..|log|] == log && log + [] == log;
  }

  /** Every run: an order's state is that of the last payment event accepted for it. */
  lemma {:induction false} RunsTrackOrders(t0: Tables, ds: seq<Delivery>, o: string)
    requires IsFresh(t0) && o in t0.orders
    ensures o in Final(t0, ds).orders
    ensures Final(t0, ds).orders[o].state == StateAfter(LastKind(Log(t0, ds), o))
  {
    if ds != [] {
      var n := |ds| - 1;
      RunsTrackOrders(t0, ds[..n], o);
      DeliverTracksOrder(Final(t0, ds[..n]), Log(t0, ds[..n]), ds[n], o);
    }
  }

  lemma {:induction false} InboxGrows(inbox: map<string, InboxRow>, log: seq<Delivery>, d: Delivery)
    requires InboxIsLog(inbox, log) && d.eventId !in inbox
    ensures InboxIsLog(inbox[d.eventId := InboxRow(d.digest, Acknowledgement(d.eventId), d.now)], log + [d])
  {
    var log' := log + [d];
    assert forall k | 0 <= k < |log| :: log'[k] == log[k];
    assert log'[|log|] == d;
  }

  lemma {:induction false} DeliverKeepsInbox(t: Tables, log: seq<Delivery>, d: Delivery)
    requires InboxIsLog(t.inbox, log)
    ensures var (t', r) := Deliver(t, d);
            InboxIsLog(t'.inbox, log + if r.Ok? && !r.value.duplicate then [d] else [])
  {
    var (t', r) := Deliver(t, d);
    if r.Ok? && !r.value.duplicate {
      InboxGrows(t.inbox, log, d);
    } else {
      assert log + [] == log;
    }
  }

  lemma {:induction false} DeliverKeepsOutbox(t0: Tables, t: Tables, log: seq<Delivery>, d: Delivery)
    requires t.outbox == Rows(log) && SameTerms(t0.orders, t.orders)
    ensures var (t', r) := Deliver(t, d);
            && t'.outbox == Rows(log + if r.Ok? && !r.value.duplicate then [d] else [])
            && SameTerms(t0.orders, t'.orders)
  {
    var (t', r) := Deliver(t, d);
    if r.Ok? && !r.value.duplicate {
      assert (log + [d])[..|log|] == log;
    } else {
      assert log + [] == log;
    }
  }

  predicate HaveDistinctIds(log: seq<Delivery>) {
    forall i, j | 0 <= i < j < |log| :: log[i].eventId != log[j].eventId
  }

  predicate AreDistinctRows(rows: seq<OutboxRow>) {
    forall k, l | 0 <= k < l < |rows| :: rows[k].eventId != rows[l].eventId
  }

  /** A row that a log's front does not explain is not there. */
  lemma {:induction false} NoRowFor(log: seq<Delivery>, eventId: string)
    requires forall k | 0 <= k < |log| :: log[k].eventId != eventId
    ensures forall r | 0 <= r < |Rows(log)| :: Rows(log)[r].eventId != eventId
  {
    forall r | 0 <= r < |Rows(log)|
      ensures Rows(log)[r].eventId != eventId
    {
      var k := RowComesFromLog(log, r);
    }
  }

  lemma {:induction false} RowsAreDistinct(log: seq<Delivery>)
    requires HaveDistinctIds(log)
    ensures AreDistinctRows(Rows(log))
  {
    if log != [] {
      var n := |log| - 1;
      RowsAreDistinct(log[..n]);
      NoRowFor(log[..n], log[n].eventId);
    }
  }

  /** How many outbox rows have this event id. */
  function RowCount(rows: seq<OutboxRow>, eventId: string): nat {
    if rows == [] then 0
    else RowCount(rows[..|rows| - 1], eventId) + if rows[|rows| - 1].eventId == eventId then 1 else 0
  }

  lemma {:induction false} CountsNothing(rows: seq<OutboxRow>, eventId: string)
    requires forall r | 0 <= r < |rows| :: rows[r].eventId != eventId
    ensures RowCount(rows, eventId) == 0
  {
    if rows != [] {
      CountsNothing(rows[..|rows| - 1], eventId);
    }
  }

  lemma {:induction false} NextRows(front: seq<Delivery>, d: Delivery, eventId: string)
    ensures PaymentOf(d).None? ==> Rows(front + [d]) == Rows(front)
    ensures PaymentOf(d).Some? ==>
              var rows := Rows(front + [d]);
              && |rows| == |Rows(front)| + 1 && rows[..|Rows(front)|] == Rows(front) && Accounts(rows[|Rows(front)|], d)
              && RowCount(rows, eventId) == RowCount(Rows(front), eventId) + if d.eventId == eventId then 1 else 0
  {
    assert (front + [d])[..|front|] == front;
    if PaymentOf(d).Some? {
      assert Rows(front + [d])[..|Rows(front)|] == Rows(front);
    }
  }

  /** An accepted payment has exactly one outbox row, an accepted event of another kind has none. */
  lemma {:induction false} RowsOfLog(log: seq<Delivery>, k: nat)
    requires k < |log| && HaveDistinctIds(log)
    ensures RowCount(Rows(log), log[k].eventId) == if PaymentOf(log[k]).Some? then 1 else 0
    ensures forall r | 0 <= r < |Rows(log)| && Rows(log)[r].eventId == log[k].eventId ::
              Accounts(Rows(log)[r], log[k])
  {
    var n := |log| - 1;
    var front := log[..n];
    NoRowFor(front, log[n].eventId);
    CountsNothing(Rows(front), log[n].eventId);
    NextRows(front, log[n], log[k].eventId);
    assert front + [log[n]] == log;
    if k < n {
      RowsOfLog(front, k);
    }
  }

  /**
   Every run: the inbox row of a payment event has one outbox row, which is about that payment; every other
   inbox row has none; and no two outbox rows share an event.
   */
  lemma {:induction false} RunsPairRows(t0: Tables, ds: seq<Delivery>, eventId: string) returns (k: nat)
    requires IsFresh(t0) && eventId in Final(t0, ds).inbox
    ensures k < |Log(t0, ds)| && Log(t0, ds)[k].eventId == eventId
    ensures var outbox, d := Final(t0, ds).outbox, Log(t0, ds)[k];
            && RowCount(outbox, eventId) == (if PaymentOf(d).Some? then 1 else 0)
            && (forall r | 0 <= r < |outbox| && outbox[r].eventId == eventId :: Accounts(outbox[r], d))
            && AreDistinctRows(outbox)
  {
    var log := Log(t0, ds);
    RunsKeepJournal(t0, ds);
    k :| 0 <= k < |log| && log[k].eventId == eventId;
    RowsOfLog(log, k);
    RowsAreDistinct(log);
  }

  lemma {:induction false} RowComesFromLog(log: seq<Delivery>, r: nat) returns (k: nat)
    requires r < |Rows(log)|
    ensures k < |log| && Accounts(Rows(log)[r], log[k])
  {
    var n := |log| - 1;
    if r < |Rows(log[..n])| {
      k := RowComesFromLog(log[..n], r);
    } else {
      k := n;
    }
  }
}
