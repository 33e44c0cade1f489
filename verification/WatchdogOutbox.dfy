/** What every channel of the watchdog receives, over every sequence of ticks. */
module WatchdogOutbox {
  import opened Watchdog
  import opened WatchdogRuns

  function Front(ticks: seq<Tick>): (front: seq<Tick>)
    requires ticks != []
    ensures |front| == |ticks| - 1
  {
    ticks[..|ticks| - 1]
  }

  function Last(ticks: seq<Tick>): Tick
    requires ticks != []
  {
    ticks[|ticks| - 1]
  }

  predicate StaysConfigured(ticks: seq<Tick>, channel: string) {
    ticks == [] || (StaysConfigured(Front(ticks), channel) && channel in Last(ticks).cfg.channels)
  }

  /** The queue of a channel after the ticks. */
  function Pending(ticks: seq<Tick>, channel: string): seq<Event> {
    Saved(After(ticks).outbox, channel)
  }

  /** The new messages of the last tick. */
  function News(ticks: seq<Tick>): seq<Event>
    requires ticks != []
  {
    Messages(After(Front(ticks)), Last(ticks))
  }

  /** What the channel is offered in the last tick. */
  function Offer(ticks: seq<Tick>, channel: string): seq<Event>
    requires ticks != []
  {
    Offered(After(Front(ticks)).outbox, channel, News(ticks))
  }

  function Taken(ticks: seq<Tick>, channel: string): (n: nat)
    requires ticks != []
    ensures n <= |Offer(ticks, channel)|
  {
    Min(Willing(Last(ticks), channel), |Offer(ticks, channel)|)
  }

  /** The messages that the channel accepted, in the order in which it accepted them. */
  function Acknowledged(ticks: seq<Tick>, channel: string): seq<Event> {
    if ticks == [] then []
    else Acknowledged(Front(ticks), channel) + Offer(ticks, channel)[..Taken(ticks, channel)]
  }

  lemma {:induction false} GeneratedStep(ticks: seq<Tick>)
    requires ticks != []
    ensures Generated(ticks) == Generated(Front(ticks)) + News(ticks)
  {
  }

  lemma {:induction false} PendingStep(ticks: seq<Tick>, channel: string)
    requires ticks != [] && channel in Last(ticks).cfg.channels
    ensures Pending(ticks, channel) == Offer(ticks, channel)[Taken(ticks, channel)..]
  {
  }

  //// Pending messages

  predicate IsSuffix(part: seq<Event>, whole: seq<Event>) {
    |part| <= |whole| && part == whole[|whole| - |part|..]
  }

  lemma {:induction false} LongerSuffix(part: seq<Event>, whole: seq<Event>, more: seq<Event>)
    requires IsSuffix(part, whole)
    ensures IsSuffix(LastOf(part + more), whole + more)
  {
  }

  lemma {:induction false} OfferIsSuffix(ticks: seq<Tick>, channel: string)
    requires ticks != [] && StaysConfigured(ticks, channel)
    ensures IsSuffix(Offer(ticks, channel), Generated(ticks))
    decreases |ticks|, 0
  {
    PendingIsSuffix(Front(ticks), channel);
    LongerSuffix(Pending(Front(ticks), channel), Generated(Front(ticks)), News(ticks));
    GeneratedStep(ticks);
  }

  /** Every run: the pending messages are the newest ones generated, and at most 50. */
  lemma {:induction false} PendingIsSuffix(ticks: seq<Tick>, channel: string)
    requires StaysConfigured(ticks, channel)
    ensures IsSuffix(Pending(ticks, channel), Generated(ticks))
    ensures |Pending(ticks, channel)| <= 50
    decreases |ticks|, 1
  {
    if ticks != [] {
      OfferIsSuffix(ticks, channel);
      PendingStep(ticks, channel);
    }
  }

  /** A channel that is no longer configured is forgotten, with its queue. */
  lemma {:induction false} UnconfiguredIsForgotten(ticks: seq<Tick>, channel: string)
    requires ticks != [] && channel !in Last(ticks).cfg.channels
    ensures channel !in After(ticks).outbox && Pending(ticks, channel) == []
  {
  }

  //// Acknowledged messages

  /** Where the acknowledged messages stand among all messages of the run. */
  function Positions(ticks: seq<Tick>, channel: string): seq<int> {
    if ticks == [] then []
    else
      var first := |Generated(ticks)| - |Offer(ticks, channel)|;
      Positions(Front(ticks), channel) + seq(Taken(ticks, channel), i => first + i)
  }

  predicate Ascends(positions: seq<int>) {
    forall i, j | 0 <= i < j < |positions| :: positions[i] < positions[j]
  }

  predicate AreWithin(positions: seq<int>, bound: int) {
    forall i | 0 <= i < |positions| :: 0 <= positions[i] < bound
  }

  /** `taken` are the elements of `whole` at the positions. */
  predicate Picks(taken: seq<Event>, whole: seq<Event>, positions: seq<int>) {
    && |taken| == |positions|
    && AreWithin(positions, |whole|)
    && forall i | 0 <= i < |taken| :: taken[i] == whole[positions[i]]
  }

  lemma {:induction false} PicksMore(taken: seq<Event>, whole: seq<Event>, positions: seq<int>, bound: int,
                                     news: seq<Event>, offer: seq<Event>, n: nat)
    requires Picks(taken, whole, positions) && Ascends(positions) && AreWithin(positions, bound)
    requires IsSuffix(offer, whole + news) && n <= |offer| && bound <= |whole + news| - |offer|
    ensures var all, first := whole + news, |whole + news| - |offer|;
            var longer := positions + seq(n, i => first + i);
            && Picks(taken + offer[..n], all, longer)
            && Ascends(longer)
            && AreWithin(longer, first + n)
  {
  }

  /**
   Every run: the channel accepted messages of the run in their order, each at most once, and all of
   them older than what is pending.
   */
  lemma {:induction false} AcknowledgedInOrder(ticks: seq<Tick>, channel: string)
    requires StaysConfigured(ticks, channel)
    ensures Picks(Acknowledged(ticks, channel), Generated(ticks), Positions(ticks, channel))
    ensures Ascends(Positions(ticks, channel))
    ensures AreWithin(Positions(ticks, channel), |Generated(ticks)| - |Pending(ticks, channel)|)
  {
    if ticks != [] {
      var front, bound := Front(ticks), |Generated(Front(ticks))| - |Pending(Front(ticks), channel)|;
      AcknowledgedInOrder(front, channel);
      GeneratedStep(ticks);
      OfferIsSuffix(ticks, channel);
      PendingStep(ticks, channel);
      PicksMore(Acknowledged(front, channel), Generated(front), Positions(front, channel), bound,
                News(ticks), Offer(ticks, channel), Taken(ticks, channel));
    }
  }

  //// Nothing is lost, exactly when the queue never overflows

  predicate NeverOverflows(ticks: seq<Tick>, channel: string) {
    || ticks == []
    || (&& NeverOverflows(Front(ticks), channel)
        && |Pending(Front(ticks), channel)| + |News(ticks)| <= 50)
  }

  /** How many messages the bound of 50 cut off. */
  function Dropped(ticks: seq<Tick>, channel: string): (n: nat)
    ensures n == 0 <==> NeverOverflows(ticks, channel)
  {
    if ticks == [] then 0
    else
      Dropped(Front(ticks), channel)
      + |Pending(Front(ticks), channel)| + |News(ticks)| - |Offer(ticks, channel)|
  }

  /** Every run: each message is acknowledged, pending or cut off. */
  lemma {:induction false} MessagesAreConserved(ticks: seq<Tick>, channel: string)
    requires StaysConfigured(ticks, channel)
    ensures |Acknowledged(ticks, channel)| + |Pending(ticks, channel)| + Dropped(ticks, channel) == |Generated(ticks)|
  {
    if ticks != [] {
      MessagesAreConserved(Front(ticks), channel);
      GeneratedStep(ticks);
      PendingStep(ticks, channel);
    }
  }

  lemma {:induction false} Regroup(acknowledged: seq<Event>, pending: seq<Event>, news: seq<Event>, n: nat)
    requires n <= |pending + news|
    ensures acknowledged + (pending + news)[..n] + (pending + news)[n..] == acknowledged + pending + news
  {
  }

  lemma {:induction false} NothingIsLost(ticks: seq<Tick>, channel: string)
    requires StaysConfigured(ticks, channel) && NeverOverflows(ticks, channel)
    ensures Acknowledged(ticks, channel) + Pending(ticks, channel) == Generated(ticks)
  {
    if ticks != [] {
      NothingIsLost(Front(ticks), channel);
      GeneratedStep(ticks);
      PendingStep(ticks, channel);
      Regroup(Acknowledged(Front(ticks), channel), Pending(Front(ticks), channel), News(ticks), Taken(ticks, channel));
    }
  }

  /** Acknowledged followed by pending is everything generated exactly when old and new messages never exceed 50. */
  lemma {:induction false} DeliveredExactly(ticks: seq<Tick>, channel: string)
    requires StaysConfigured(ticks, channel)
    ensures Acknowledged(ticks, channel) + Pending(ticks, channel) == Generated(ticks)
            <==> NeverOverflows(ticks, channel)
  {
    MessagesAreConserved(ticks, channel);
    if NeverOverflows(ticks, channel) {
      NothingIsLost(ticks, channel);
    } else {
      assert |Acknowledged(ticks, channel) + Pending(ticks, channel)| < |Generated(ticks)|;
    }
  }

  //// A tick that overflows

  const CROWD := 51

  /** Names of one to 51 letters. */
  function CrowdNames(): (names: seq<string>)
    ensures |names| == CROWD && AreDistinct(names)
  {
    var names := seq(CROWD, i requires 0 <= i => seq(i + 1, _ => 'a'));
    assert forall i | 0 <= i < CROWD :: |names[i]| == i + 1;
    names
  }

  /** The first tick with 51 targets that cannot be reached, no waiting before an alert, and a channel that is down. */
  function CrowdTick(): Tick {
    Tick(Config(CrowdNames(), 0, 3600, ["webhook"]), 0.0, map[], [], map[])
  }

  lemma {:induction false} AllAlert(t: Tick, names: seq<string>)
    requires t.cfg.alertAfter == 0 && t.seen == map[]
    ensures |TargetEvents(EMPTY, t, names)| == |names|
  {
    if names != [] {
      AllAlert(t, names[..|names| - 1]);
      assert |Evaluated(EMPTY, t, names[|names| - 1]).1| == 1;
    }
  }

  /** A first tick with 51 messages for a channel that is down: 50 are kept, the oldest is lost. */
  lemma {:induction false} FirstTickOverflows(t: Tick, channel: string)
    requires channel in t.cfg.channels && Willing(t, channel) == 0 && |Messages(EMPTY, t)| == CROWD
    ensures StaysConfigured([t], channel) && !NeverOverflows([t], channel)
    ensures Generated([t]) == Messages(EMPTY, t) && Dropped([t], channel) == 1
    ensures Acknowledged([t], channel) == [] && Pending([t], channel) == Generated([t])[1..]
  {
    var ticks := [t];
    assert Front(ticks) == [];
    GeneratedStep(ticks);
    PendingStep(ticks, channel);
    assert [] + News(ticks) == News(ticks);
  }

  /** The tick above is such a tick: one of its messages is neither accepted nor pending. */
  lemma OneTickOverflows()
    ensures var ticks := [CrowdTick()];
            && AreProper(ticks) && StaysConfigured(ticks, "webhook")
            && |Generated(ticks)| == CROWD && Dropped(ticks, "webhook") == 1 && !NeverOverflows(ticks, "webhook")
            && Acknowledged(ticks, "webhook") == [] && Pending(ticks, "webhook") == Generated(ticks)[1..]
  {
    var t := CrowdTick();
    AllAlert(t, t.cfg.targets);
    FirstTickOverflows(t, "webhook");
    assert [t][..0] == [];
  }

  //// Channels are independent

  /** The ticks differ at most in the other channels: whether they are configured and what they accept. */
  predicate SameFor(a: Tick, b: Tick, channel: string) {
    && a.(cfg := a.cfg.(channels := []), accepts := map[]) == b.(cfg := b.cfg.(channels := []), accepts := map[])
    && (channel in a.cfg.channels <==> channel in b.cfg.channels)
    && Willing(a, channel) == Willing(b, channel)
  }

  predicate AreSameFor(a: seq<Tick>, b: seq<Tick>, channel: string) {
    && |a| == |b|
    && (a == [] || (AreSameFor(Front(a), Front(b), channel) && SameFor(Last(a), Last(b), channel)))
  }

  predicate AgreeOn(x: State, y: State, channel: string) {
    x.targets == y.targets && x.lastRun == y.lastRun && Saved(x.outbox, channel) == Saved(y.outbox, channel)
  }

  lemma {:induction false} SameEvaluated(x: State, y: State, a: Tick, b: Tick, channel: string, name: string)
    requires AgreeOn(x, y, channel) && SameFor(a, b, channel)
    ensures Evaluated(x, a, name) == Evaluated(y, b, name)
  {
  }

  lemma {:induction false} SameTargetEvents(x: State, y: State, a: Tick, b: Tick, channel: string, names: seq<string>)
    requires AgreeOn(x, y, channel) && SameFor(a, b, channel)
    ensures TargetEvents(x, a, names) == TargetEvents(y, b, names)
  {
    if names != [] {
      SameTargetEvents(x, y, a, b, channel, names[..|names| - 1]);
      SameEvaluated(x, y, a, b, channel, names[|names| - 1]);
    }
  }

  lemma {:induction false} SameRemovedEvents(x: State, y: State, a: Tick, b: Tick, channel: string, names: seq<string>)
    requires AgreeOn(x, y, channel) && SameFor(a, b, channel)
    ensures RemovedEvents(x, a, names) == RemovedEvents(y, b, names)
  {
    if names != [] {
      SameRemovedEvents(x, y, a, b, channel, names[..|names| - 1]);
    }
  }

  lemma {:induction false} SameMessages(x: State, y: State, a: Tick, b: Tick, channel: string)
    requires AgreeOn(x, y, channel) && SameFor(a, b, channel)
    ensures Messages(x, a) == Messages(y, b)
  {
    SameTargetEvents(x, y, a, b, channel, a.cfg.targets);
    SameRemovedEvents(x, y, a, b, channel, a.order);
  }

  lemma {:induction false} SameTargets(x: State, y: State, a: Tick, b: Tick, channel: string)
    requires AgreeOn(x, y, channel) && SameFor(a, b, channel)
    ensures NextTargets(x, a, a.cfg.targets) == NextTargets(y, b, b.cfg.targets)
  {
    forall name | name in a.cfg.targets
      ensures Evaluated(x, a, name) == Evaluated(y, b, name)
    {
      SameEvaluated(x, y, a, b, channel, name);
    }
  }

  lemma {:induction false} SameQueue(x: State, a: Tick, channel: string)
    ensures Saved(Next(x, a).outbox, channel)
         == if channel in a.cfg.channels
            then Left(LastOf(Saved(x.outbox, channel) + Messages(x, a)), Willing(a, channel))
            else []
  {
  }

  /** Every run: what another channel accepts, and whether there is one, changes neither the messages nor this queue. */
  lemma {:induction false} ChannelsAreIndependent(a: seq<Tick>, b: seq<Tick>, channel: string)
    requires AreSameFor(a, b, channel)
    ensures Generated(a) == Generated(b)
    ensures Pending(a, channel) == Pending(b, channel)
    ensures Acknowledged(a, channel) == Acknowledged(b, channel)
    ensures AgreeOn(After(a), After(b), channel)
  {
    if a != [] {
      var x, y := After(Front(a)), After(Front(b));
      ChannelsAreIndependent(Front(a), Front(b), channel);
      SameMessages(x, y, Last(a), Last(b), channel);
      SameTargets(x, y, Last(a), Last(b), channel);
      SameQueue(x, Last(a), channel);
      SameQueue(y, Last(b), channel);
    }
  }
}
