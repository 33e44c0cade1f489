/** Every sequence of calls on the store of pending mutations, against a queue-ordered map of 24 keys. */
module IdempotencyRuns {
  import opened Prelude
  import opened Idempotency

  function Run(ops: seq<Op>): seq<Entry> {
    if ops == [] then [] else Step(Run(ops[..|ops| - 1]), ops[|ops| - 1])
  }

  //// The reference: a map whose keys leave in the order they came

  datatype Fifo = Fifo(order: seq<Text>, keys: map<Text, Text>)

  function Removed(order: seq<Text>, f: Text): seq<Text> {
    if order == [] then []
    else Removed(order[..|order| - 1], f) + if order[|order| - 1] == f then [] else [order[|order| - 1]]
  }

  function FifoStep(q: Fifo, op: Op): Fifo {
    match op
    case Completed(f) => Fifo(Removed(q.order, f), q.keys - {f})
    case Pending(f, created, _) =>
      if !IsFingerprint(f) || f in q.keys || !IsKey(created) then q
      else if |q.order| < CAPACITY then Fifo(q.order + [f], q.keys[f := created])
      else Fifo(q.order[1..] + [f], (q.keys - {q.order[0]})[f := created])
  }

  function FifoReply(q: Fifo, op: Op): Option<Text> {
    if op.Completed? || !IsFingerprint(op.f) then None
    else if op.f in q.keys then Some(q.keys[op.f])
    else if IsKey(op.created) then Some(op.created)
    else None
  }

  function FifoRun(ops: seq<Op>): Fifo {
    if ops == [] then Fifo([], map[]) else FifoStep(FifoRun(ops[..|ops| - 1]), ops[|ops| - 1])
  }

  //// The store refines the reference

  predicate AllValid(es: seq<Entry>) {
    forall i | 0 <= i < |es| :: IsValid(es[i])
  }

  predicate Distinct(es: seq<Entry>) {
    forall i, j | 0 <= i < j < |es| :: es[i].f != es[j].f
  }

  predicate WellFormed(es: seq<Entry>) {
    |es| <= CAPACITY && AllValid(es) && Distinct(es)
  }

  /** What the store keeps it can read back exactly as long as its text is not too long. */
  lemma {:induction false} ReadableExactly(es: seq<Entry>)
    requires WellFormed(es)
    ensures JsonLength(es) <= LIMIT ==> Readable(es) == es
    ensures JsonLength(es) > LIMIT ==> Readable(es) == [] != es
  {
  }

  function Order(es: seq<Entry>): (order: seq<Text>)
    ensures |order| == |es| && forall i | 0 <= i < |es| :: order[i] == es[i].f
  {
    seq(|es|, i requires 0 <= i < |es| => es[i].f)
  }

  function Keys(es: seq<Entry>): map<Text, Text> {
    if es == [] then map[] else Keys(es[..|es| - 1])[es[|es| - 1].f := es[|es| - 1].k]
  }

  lemma {:induction false} KeysHold(es: seq<Entry>, i: nat)
    requires i < |es|
    ensures es[i].f in Keys(es)
  {
    if i < |es| - 1 {
      KeysHold(es[..|es| - 1], i);
    }
  }

  lemma {:induction false} RemoveThenUpdate(m: map<Text, Text>, removed: Text, k: Text, v: Text)
    ensures k != removed ==> m[k := v] - {removed} == (m - {removed})[k := v]
    ensures k == removed ==> m[k := v] - {removed} == m - {removed}
  {
  }

  /** The map and queue that the entries stand for. */
  function Meaning(es: seq<Entry>): Fifo {
    Fifo(Order(es), Keys(es))
  }

  lemma {:induction false} KeysAppend(es: seq<Entry>, e: Entry)
    ensures Keys(es + [e]) == Keys(es)[e.f := e.k]
    ensures Order(es + [e]) == Order(es) + [e.f]
  {
    assert (es + [e])[..|es|] == es;
  }

  lemma {:induction false} KeysWithoutFirst(es: seq<Entry>)
    requires Distinct(es) && es != []
    ensures Keys(es[1..]) == Keys(es) - {es[0].f}
  {
    var n := |es| - 1;
    if n == 0 {
      assert es[..0] == [] && es[1..] == [];
    } else {
      var front := es[..n];
      KeysWithoutFirst(front);
      RemoveThenUpdate(Keys(front), es[0].f, es[n].f, es[n].k);
      assert es[1..] == front[1..] + [es[n]];
      KeysAppend(front[1..], es[n]);
    }
  }

  lemma {:induction false} FindIsLookup(es: seq<Entry>, f: Text)
    requires Distinct(es)
    ensures Find(es, f) == if f in Keys(es) then Some(Keys(es)[f]) else None
  {
    if es != [] {
      FirstKey(es);
      FindIsLookup(es[1..], f);
      KeysWithoutFirst(es);
    }
  }

  lemma {:induction false} FirstKey(es: seq<Entry>)
    requires Distinct(es) && es != []
    ensures es[0].f in Keys(es) && Keys(es)[es[0].f] == es[0].k
  {
    if |es| > 1 {
      FirstKey(es[..|es| - 1]);
    }
  }

  lemma {:induction false} WithoutIsRemoved(es: seq<Entry>, f: Text)
    ensures Order(Without(es, f)) == Removed(Order(es), f)
    ensures Keys(Without(es, f)) == Keys(es) - {f}
  {
    if es != [] {
      var front, e := es[..|es| - 1], es[|es| - 1];
      WithoutIsRemoved(front, f);
      assert Order(es)[..|es| - 1] == Order(front);
      RemoveThenUpdate(Keys(front), f, e.f, e.k);
      if e.f != f {
        KeysAppend(Without(front, f), e);
      } else {
        assert Without(es, f) == Without(front, f);
      }
    }
  }

  lemma {:induction false} WithoutKeepsSome(es: seq<Entry>, f: Text)
    ensures forall e | e in Without(es, f) :: e in es
  {
    if es != [] {
      WithoutKeepsSome(es[..|es| - 1], f);
    }
  }

  lemma {:induction false} WithoutKeepsWellFormed(es: seq<Entry>, f: Text)
    requires WellFormed(es)
    ensures WellFormed(Without(es, f))
  {
    if es != [] {
      var n := |es| - 1;
      var front := es[..n];
      WithoutIsShorter(front, f);
      WithoutKeepsWellFormed(front, f);
      WithoutKeepsSome(front, f);
      NewIsDistinct(front, Without(front, f), es[n]);
    }
  }

  lemma {:induction false} NewIsDistinct(es: seq<Entry>, some: seq<Entry>, e: Entry)
    requires forall i | 0 <= i < |es| :: es[i].f != e.f
    requires Distinct(some) && forall x | x in some :: x in es
    ensures Distinct(some + [e])
  {
    forall i | 0 <= i < |some|
      ensures some[i].f != e.f
    {
      assert some[i] in es;
    }
  }

  lemma {:induction false} AppendRefines(es: seq<Entry>, f: Text, created: Text, now: nat)
    requires WellFormed(es) && f !in Keys(es) && IsFingerprint(f) && IsKey(created) && now <= MAX_SAFE
    ensures WellFormed(Last(es + [Entry(f, created, now)]))
    ensures Meaning(Last(es + [Entry(f, created, now)])) == FifoStep(Meaning(es), Pending(f, created, now))
  {
    var e := Entry(f, created, now);
    AppendKeepsWellFormed(es, e);
    if |es| < CAPACITY {
      KeysAppend(es, e);
    } else {
      KeysWithoutFirst(es);
      KeysAppend(es[1..], e);
      assert Last(es + [e]) == es[1..] + [e];
      assert Order(es[1..]) == Order(es)[1..];
    }
  }

  lemma {:induction false} AppendKeepsWellFormed(es: seq<Entry>, e: Entry)
    requires WellFormed(es) && e.f !in Keys(es) && IsValid(e)
    ensures WellFormed(Last(es + [e]))
  {
    forall i | 0 <= i < |es|
      ensures es[i].f != e.f
    {
      KeysHold(es, i);
    }
    assert Distinct(es + [e]) && AllValid(es + [e]);
  }

  lemma {:induction false} StepRefines(es: seq<Entry>, op: Op)
    requires WellFormed(es) && JsonLength(es) <= LIMIT
    requires op.Pending? ==> op.now <= MAX_SAFE
    ensures WellFormed(Step(es, op)) && Meaning(Step(es, op)) == FifoStep(Meaning(es), op)
    ensures Reply(es, op) == FifoReply(Meaning(es), op)
  {
    ReadableExactly(es);
    match op
    case Completed(f) =>
      WithoutIsRemoved(es, f);
      WithoutKeepsWellFormed(es, f);
    case Pending(f, created, now) =>
      FindIsLookup(es, f);
      if IsFingerprint(f) && f !in Keys(es) && IsKey(created) {
        AppendRefines(es, f, created, now);
      }
  }

  predicate SaneClock(ops: seq<Op>) {
    forall i | 0 <= i < |ops| && ops[i].Pending? :: ops[i].now <= MAX_SAFE
  }

  /** The text never grew beyond what `read` accepts. */
  predicate FitsThroughout(ops: seq<Op>) {
    JsonLength(Run(ops)) <= 131072 && (ops != [] ==> FitsThroughout(ops[..|ops| - 1]))
  }

  /** Every run within the length limit is a run of the queue-ordered map, reply by reply. */
  lemma {:induction false} RunRefines(ops: seq<Op>, op: Op)
    requires SaneClock(ops) && FitsThroughout(ops)
    ensures WellFormed(Run(ops)) && Meaning(Run(ops)) == FifoRun(ops)
    ensures Reply(Run(ops), op) == FifoReply(FifoRun(ops), op)
  {
    if ops != [] {
      RunRefines(ops[..|ops| - 1], op);
      StepRefines(Run(ops[..|ops| - 1]), ops[|ops| - 1]);
    }
    ReadableExactly(Run(ops));
    FindIsLookup(Run(ops), op.f);
  }

  //// How long a fingerprint keeps its key

  ghost predicate IsFifo(q: Fifo) {
    && |q.order| <= CAPACITY
    && (forall i, j | 0 <= i < j < |q.order| :: q.order[i] != q.order[j])
    && forall f :: f in q.keys <==> f in q.order
  }

  /** How many entries of the queue came with `f` at place `i` or after it. */
  function Since(q: Fifo, i: nat): nat
    requires i < |q.order|
  {
    |q.order| - i
  }

  /** Whether a call adds a fingerprint. */
  predicate Adds(q: Fifo, op: Op) {
    op.Pending? && IsFingerprint(op.f) && op.f !in q.keys && IsKey(op.created)
  }

  lemma {:induction false} RemovedKeeps(order: seq<Text>, removed: Text, i: nat) returns (j: nat)
    requires i < |order| && order[i] != removed
    ensures j < |Removed(order, removed)| && Removed(order, removed)[j] == order[i]
    ensures |Removed(order, removed)| - j <= |order| - i
  {
    var n := |order| - 1;
    if i == n {
      j := |Removed(order[..n], removed)|;
    } else {
      j := RemovedKeeps(order[..n], removed, i);
    }
  }

  lemma {:induction false} RemovedIsFifo(order: seq<Text>, removed: Text)
    requires forall i, j | 0 <= i < j < |order| :: order[i] != order[j]
    ensures var r := Removed(order, removed);
            && |r| <= |order|
            && (forall f :: f in r <==> f in order && f != removed)
            && forall i, j | 0 <= i < j < |r| :: r[i] != r[j]
  {
    if order != [] {
      var front := order[..|order| - 1];
      RemovedIsFifo(front, removed);
      assert forall f :: f in order <==> f in front || f == order[|order| - 1];
      assert forall f | f in front :: f != order[|order| - 1];
      assert forall i | 0 <= i < |Removed(front, removed)| :: Removed(front, removed)[i] in front;
    }
  }

  /** One call evicts a fingerprint exactly when it adds another one to a full queue that `f` leads. */
  lemma {:induction false} EvictedExactly(q: Fifo, op: Op, f: Text)
    requires IsFifo(q) && f in q.keys && op != Completed(f)
    ensures IsFifo(FifoStep(q, op))
    ensures f !in FifoStep(q, op).keys <==> Adds(q, op) && |q.order| == 24 && q.order[0] == f
    ensures f in FifoStep(q, op).keys ==> FifoStep(q, op).keys[f] == q.keys[f]
  {
    if op.Completed? {
      RemovedIsFifo(q.order, op.f);
    }
  }

  function Additions(q: Fifo, ops: seq<Op>): nat
    decreases |ops|
  {
    if ops == [] then 0 else (if Adds(q, ops[0]) then 1 else 0) + Additions(FifoStep(q, ops[0]), ops[1..])
  }

  function FifoFrom(q: Fifo, ops: seq<Op>): Fifo
    decreases |ops|
  {
    if ops == [] then q else FifoFrom(FifoStep(q, ops[0]), ops[1..])
  }

  lemma {:induction false} StepMovesForward(q: Fifo, op: Op, i: nat) returns (j: nat)
    requires IsFifo(q) && i < |q.order| && op != Completed(q.order[i])
    requires Since(q, i) + (if Adds(q, op) then 1 else 0) <= CAPACITY
    ensures var next := FifoStep(q, op);
            && j < |next.order| && next.order[j] == q.order[i]
            && Since(next, j) <= Since(q, i) + if Adds(q, op) then 1 else 0
  {
    j := i;
    if op.Completed? {
      j := RemovedKeeps(q.order, op.f, i);
    } else if Adds(q, op) && |q.order| == CAPACITY {
      j := i - 1;
    }
  }

  /** Unless it is completed, a fingerprint keeps its key while it and all that came after it are at most 24. */
  lemma {:induction false} KeepsItsKey(q: Fifo, ops: seq<Op>, i: nat)
    requires IsFifo(q) && i < |q.order| && q.order[i] in q.keys
    requires Completed(q.order[i]) !in ops
    requires Since(q, i) + Additions(q, ops) <= 24
    ensures var f, last := q.order[i], FifoFrom(q, ops); f in last.keys && last.keys[f] == q.keys[f]
    decreases |ops|
  {
    if ops != [] {
      var op, f := ops[0], q.order[i];
      var j := StepMovesForward(q, op, i);
      EvictedExactly(q, op, f);
      KeepsItsKey(FifoStep(q, op), ops[1..], j);
    }
  }

  lemma {:induction false} StepIsFifo(q: Fifo, op: Op)
    requires IsFifo(q)
    ensures IsFifo(FifoStep(q, op))
  {
    if op.Completed? {
      RemovedIsFifo(q.order, op.f);
    }
  }

  lemma {:induction false} RunIsFifo(ops: seq<Op>)
    ensures IsFifo(FifoRun(ops))
  {
    if ops != [] {
      RunIsFifo(ops[..|ops| - 1]);
      StepIsFifo(FifoRun(ops[..|ops| - 1]), ops[|ops| - 1]);
    }
  }

  lemma {:induction false} FifoRunOn(before: seq<Op>, after: seq<Op>)
    ensures FifoRun(before + after) == FifoFrom(FifoRun(before), after)
    decreases |after|
  {
    if after == [] {
      assert before + after == before;
    } else {
      assert before + after == (before + [after[0]]) + after[1..];
      assert (before + [after[0]])[..|before|] == before;
      FifoRunOn(before + [after[0]], after[1..]);
    }
  }

  /** A key handed out for a new fingerprint is handed out again, until completion or 24 newer fingerprints. */
  lemma {:induction false} KeyIsHandedOutAgain(before: seq<Op>, first: Op, after: seq<Op>, again: Op)
    requires var ops := before + [first] + after; SaneClock(ops) && FitsThroughout(ops)
    requires Adds(FifoRun(before), first) && again.Pending? && again.f == first.f
    requires Completed(first.f) !in after && Additions(FifoRun(before + [first]), after) < 24
    ensures Reply(Run(before + [first] + after), again) == Some(first.created)
  {
    var q := FifoRun(before + [first]);
    RunIsFifo(before);
    RunIsFifo(before + [first]);
    assert (before + [first])[..|before|] == before;
    assert q == FifoStep(FifoRun(before), first);
    var i := |q.order| - 1;
    assert q.order[i] == first.f && q.keys[first.f] == first.created;
    KeepsItsKey(q, after, i);
    FifoRunOn(before + [first], after);
    RunRefines(before + [first] + after, again);
  }

  //// When the text stays short enough

  predicate IsPlain(s: Text) {
    forall i | 0 <= i < |s| :: UnitLength(s[i]) == 1
  }

  lemma {:induction false} PlainLength(s: Text)
    requires IsPlain(s)
    ensures EscapedLength(s) == |s|
  {
    if s != [] {
      assert UnitLength(s[0]) == 1;
      PlainLength(s[1..]);
    }
  }

  lemma {:induction false} KeysArePlain(k: Text)
    requires IsKey(k)
    ensures IsPlain(k)
  {
    forall i | 0 <= i < 46
      ensures UnitLength(k[i]) == 1
    {
      if i < 10 {
        assert IsLetter(k[i], PREFIX[i]);
        PrefixIsPlain(k[i], i);
      }
    }
  }

  lemma {:induction false} PrefixIsPlain(u: Unit, i: nat)
    requires i < 10 && IsLetter(u, PREFIX[i])
    ensures UnitLength(u) == 1
  {
    assert 'a' <= PREFIX[i] <= 'z' || PREFIX[i] == '-';
  }

  lemma {:induction false} DecimalBound(n: nat, digits: nat)
    requires digits >= 1 && n < Power(10, digits)
    ensures DecimalLength(n) <= digits
  {
    if n >= 10 {
      DecimalBound(n / 10, digits - 1);
    }
  }

  lemma {:induction false} EntryBound(e: Entry)
    requires IsValid(e) && IsPlain(e.f)
    ensures EntryLength(e) <= 4178
  {
    PlainLength(e.f);
    KeysArePlain(e.k);
    PlainLength(e.k);
    assert Power(10, 8) == 1_0000_0000;
    assert Power(10, 16) == 1_0000_0000_0000_0000;
    DecimalBound(e.t, 16);
  }

  lemma {:induction false} ItemsBound(es: seq<Entry>)
    requires AllValid(es) && forall i | 0 <= i < |es| :: IsPlain(es[i].f)
    ensures ItemsLength(es) <= 4179 * |es|
  {
    if es != [] {
      var n := |es| - 1;
      ItemsBound(es[..n]);
      assert IsValid(es[n]) && IsPlain(es[n].f);
      EntryBound(es[n]);
    }
  }

  /** Fingerprints without characters that JSON escapes always fit. */
  lemma {:induction false} PlainFits(es: seq<Entry>)
    requires WellFormed(es) && forall i | 0 <= i < |es| :: IsPlain(es[i].f)
    ensures JsonLength(es) <= LIMIT
  {
    ItemsBound(es);
  }

  predicate AllPlain(es: seq<Entry>) {
    forall e | e in es :: IsPlain(e.f)
  }

  lemma {:induction false} StepKeepsPlain(es: seq<Entry>, op: Op)
    requires WellFormed(es) && AllPlain(es) && IsPlain(op.f)
    ensures AllPlain(Step(es, op))
  {
    ReadableExactly(es);
    if op.Completed? {
      WithoutKeepsSome(Readable(es), op.f);
    }
  }

  /** So runs over such fingerprints need no further condition. */
  lemma {:induction false} PlainRunsFit(ops: seq<Op>)
    requires SaneClock(ops) && forall i | 0 <= i < |ops| :: IsPlain(ops[i].f)
    ensures FitsThroughout(ops) && AllPlain(Run(ops))
  {
    if ops != [] {
      var front, last := ops[..|ops| - 1], ops[|ops| - 1];
      PlainRunsFit(front);
      RunRefines(front, last);
      StepKeepsPlain(Run(front), last);
      StepRefines(Run(front), last);
      PlainFits(Run(ops));
    }
  }

  //// When it does not

  lemma {:induction false} StepKeepsWellFormed(es: seq<Entry>, op: Op)
    requires WellFormed(es) && (op.Pending? ==> op.now <= MAX_SAFE)
    ensures WellFormed(Step(es, op))
  {
    var readable := Readable(es);
    ReadableExactly(es);
    match op
    case Completed(f) => WithoutKeepsWellFormed(readable, f);
    case Pending(f, created, now) =>
      FindIsLookup(readable, f);
      if IsFingerprint(f) && f !in Keys(readable) && IsKey(created) {
        AppendKeepsWellFormed(readable, Entry(f, created, now));
      }
  }

  /** Every run, however long its text: at most 24 valid entries with distinct fingerprints. */
  lemma {:induction false} RunsStayWellFormed(ops: seq<Op>)
    requires SaneClock(ops)
    ensures WellFormed(Run(ops)) && |Run(ops)| <= 24
  {
    if ops != [] {
      RunsStayWellFormed(ops[..|ops| - 1]);
      StepKeepsWellFormed(Run(ops[..|ops| - 1]), ops[|ops| - 1]);
    }
  }

  /** Every run: a stored fingerprint gets its stored key back exactly while the text is within the limit. */
  lemma {:induction false} KeyKeptExactly(ops: seq<Op>, i: nat, created: Text, now: nat)
    requires SaneClock(ops) && i < |Run(ops)| && IsKey(created) && created != Run(ops)[i].k
    ensures Reply(Run(ops), Pending(Run(ops)[i].f, created, now)) == Some(Run(ops)[i].k)
       <==> |JsonText(Run(ops))| <= 131072
  {
    JsonHasLength(Run(ops));
    RunsStayWellFormed(ops);
    StoredKeyExactly(Run(ops), i, created, now);
  }

  lemma {:induction false} StoredKeyExactly(es: seq<Entry>, i: nat, created: Text, now: nat)
    requires WellFormed(es) && i < |es| && IsKey(created) && created != es[i].k
    ensures Reply(es, Pending(es[i].f, created, now)) == Some(es[i].k) <==> JsonLength(es) <= LIMIT
  {
    ReadableExactly(es);
    assert IsValid(es[i]);
    if JsonLength(es) <= LIMIT {
      FindAt(es, i);
    }
  }

  /** After every call, what a reader finds in the store is what the queue-ordered map holds. */
  predicate RefinesThroughout(ops: seq<Op>) {
    Meaning(Readable(Run(ops))) == FifoRun(ops) && (ops != [] ==> RefinesThroughout(ops[..|ops| - 1]))
  }

  /** Every run: the store is the queue-ordered map throughout exactly when its text stays within the limit throughout. */
  lemma {:induction false} RefinesExactly(ops: seq<Op>)
    requires SaneClock(ops)
    ensures RefinesThroughout(ops) <==> FitsThroughout(ops)
  {
    if ops == [] || FitsThroughout(ops[..|ops| - 1]) {
      NextMeaning(ops);
      ReadsAsMeant(Run(ops));
    }
    if ops != [] {
      RefinesExactly(ops[..|ops| - 1]);
    }
  }

  /** The call that makes the text too long still does what the map does: the loss comes with the next one. */
  lemma {:induction false} NextMeaning(ops: seq<Op>)
    requires SaneClock(ops) && (ops != [] ==> FitsThroughout(ops[..|ops| - 1]))
    ensures WellFormed(Run(ops)) && Meaning(Run(ops)) == FifoRun(ops)
  {
    if ops != [] {
      var front, last := ops[..|ops| - 1], ops[|ops| - 1];
      RunRefines(front, last);
      StepRefines(Run(front), last);
    }
  }

  lemma {:induction false} ReadsAsMeant(es: seq<Entry>)
    requires WellFormed(es)
    ensures Meaning(Readable(es)) == Meaning(es) <==> JsonLength(es) <= LIMIT
  {
    ReadableExactly(es);
    if JsonLength(es) > LIMIT {
      assert |Meaning(Readable(es)).order| != |Meaning(es).order|;
    }
  }

  lemma {:induction false} FindAt(es: seq<Entry>, i: nat)
    requires Distinct(es) && i < |es|
    ensures Find(es, es[i].f) == Some(es[i].k)
  {
    if i > 0 {
      assert es[1..][i - 1] == es[i] && es[0].f != es[i].f;
      FindAt(es[1..], i - 1);
    }
  }

  /** 4095 control characters and a digit. */
  function Awkward(n: nat): Text
    requires n < 10
  {
    seq(4095, _ => 1) + [48 + n]
  }

  function AwkwardEntries(k: Text, n: nat): (es: seq<Entry>)
    requires n <= 6
    ensures |es| == n
  {
    if n == 0 then [] else AwkwardEntries(k, n - 1) + [Entry(Awkward(n - 1), k, 0)]
  }

  function AwkwardOps(k: Text, n: nat): seq<Op>
    requires n <= 6
  {
    if n == 0 then [] else AwkwardOps(k, n - 1) + [Pending(Awkward(n - 1), k, 0)]
  }

  lemma {:induction false} ControlLength(n: nat, last: Unit)
    requires 48 <= last <= 57
    ensures EscapedLength(seq(n, _ => 1) + [last]) == 6 * n + 1
  {
    var s: Text := seq(n, _ => 1) + [last];
    if n > 0 {
      assert s[1..] == seq(n - 1, _ => 1) + [last];
      ControlLength(n - 1, last);
    } else {
      assert s == [last] && s[1..] == [];
    }
  }

  lemma {:induction false} AwkwardLength(k: Text, n: nat)
    requires n <= 6 && IsKey(k)
    ensures ItemsLength(AwkwardEntries(k, n)) == 24639 * n
  {
    if n > 0 {
      var es, e := AwkwardEntries(k, n - 1), Entry(Awkward(n - 1), k, 0);
      AwkwardLength(k, n - 1);
      assert (es + [e])[..n - 1] == es;
      ControlLength(4095, 48 + (n - 1));
      KeysArePlain(k);
      PlainLength(k);
      assert EntryLength(e) == 24638;
    }
  }

  lemma {:induction false} AwkwardWellFormed(k: Text, n: nat)
    requires n <= 6 && IsKey(k)
    ensures WellFormed(AwkwardEntries(k, n))
    ensures forall e | e in AwkwardEntries(k, n) :: |e.f| == 4096 && 48 <= e.f[4095] < 48 + n
  {
    if n > 0 {
      var es, e := AwkwardEntries(k, n - 1), Entry(Awkward(n - 1), k, 0);
      AwkwardWellFormed(k, n - 1);
      assert IsValid(e);
      assert forall i | 0 <= i < |es| :: es[i] in es && es[i].f[4095] != e.f[4095];
    }
  }

  /** Six new requests whose fingerprints are full of control characters: the store forgets all of them. */
  lemma {:induction false} SixAwkwardRequestsAreForgotten(k: Text)
    requires IsKey(k)
    ensures Run(AwkwardOps(k, 6)) == AwkwardEntries(k, 6) && WellFormed(AwkwardEntries(k, 6))
    ensures JsonLength(AwkwardEntries(k, 6)) > LIMIT && Readable(AwkwardEntries(k, 6)) == []
  {
    AwkwardRun(k, 6);
    AwkwardWellFormed(k, 6);
    AwkwardLength(k, 6);
    ReadableExactly(AwkwardEntries(k, 6));
  }

  lemma {:induction false} AwkwardRun(k: Text, n: nat)
    requires n <= 6 && IsKey(k)
    ensures Run(AwkwardOps(k, n)) == AwkwardEntries(k, n)
  {
    if n > 0 {
      AwkwardRun(k, n - 1);
      var ops := AwkwardOps(k, n);
      assert ops[..|ops| - 1] == AwkwardOps(k, n - 1);
      AwkwardStep(k, n - 1);
    }
  }

  lemma {:induction false} AwkwardIsNew(k: Text, n: nat)
    requires n < 6 && IsKey(k)
    ensures Find(AwkwardEntries(k, n), Awkward(n)) == None
  {
    var es := AwkwardEntries(k, n);
    AwkwardWellFormed(k, n);
    forall i | 0 <= i < |es|
      ensures es[i].f != Awkward(n)
    {
      assert es[i] in es;
    }
    FindNone(es, Awkward(n));
  }

  lemma {:induction false} StepAppends(es: seq<Entry>, f: Text, k: Text)
    requires Readable(es) == es && |es| < CAPACITY && Find(es, f) == None && IsFingerprint(f) && IsKey(k)
    ensures Step(es, Pending(f, k, 0)) == es + [Entry(f, k, 0)]
  {
  }

  lemma {:induction false} AwkwardStep(k: Text, n: nat)
    requires n < 6 && IsKey(k)
    ensures Step(AwkwardEntries(k, n), Pending(Awkward(n), k, 0)) == AwkwardEntries(k, n + 1)
  {
    AwkwardLength(k, n);
    AwkwardWellFormed(k, n);
    ReadableExactly(AwkwardEntries(k, n));
    AwkwardIsNew(k, n);
    StepAppends(AwkwardEntries(k, n), Awkward(n), k);
  }

  lemma {:induction false} FindNone(es: seq<Entry>, f: Text)
    requires forall i | 0 <= i < |es| :: es[i].f != f
    ensures Find(es, f) == None
  {
    if es != [] {
      FindNone(es[1..], f);
    }
  }
}
