/**
 One tick of the scanner watchdog: it evaluates every target, generates events, and offers the
 pending messages of every channel to that channel until one is refused.

 Probing and delivery are inputs: an observation per target, and per channel the number of messages
 it accepts before it fails. An event stands for its message text.
 */
module Watchdog {
  import opened Prelude

  datatype Target = Target(badSince: Option<real>, alertedAt: Option<real>)

  const CLEAR := Target(None, None)

  datatype Observation = Observation(problem: Option<string>, lag: Option<nat>)

  datatype Kind = Alert | Repeat | Recovered | Removed

  datatype Event = Event(kind: Kind, target: string, problem: Option<string>, lag: Option<nat>, badFor: real)

  datatype Config = Config(targets: seq<string>, alertAfter: nat, repeatAfter: nat, channels: seq<string>)

  const OUTBOX_LIMIT := 50

  //// One target

  /** A saved time that lies in the future counts as now. */
  function Clamp(t: Option<real>, now: real): Option<real> {
    if t.Some? && t.value > now then Some(now) else t
  }

  function Evaluate(previous: Target, name: string, seen: Observation, now: real, cfg: Config): (Target, seq<Event>) {
    var badSince, alertedAt := Clamp(previous.badSince, now), Clamp(previous.alertedAt, now);
    if seen.problem.None? then
      var start := if badSince.Some? && badSince.value != 0.0 then badSince.value else now;
      var badFor := if now - start > 0.0 then now - start else 0.0;
      (CLEAR, if alertedAt.Some? then [Event(Recovered, name, seen.problem, seen.lag, badFor)] else [])
    else
      var since := if badSince.Some? then badSince.value else now;
      var badFor := now - since;
      if alertedAt.None? && badFor >= cfg.alertAfter as real then
        (Target(Some(since), Some(now)), [Event(Alert, name, seen.problem, seen.lag, badFor)])
      else if alertedAt.Some? && now - alertedAt.value >= cfg.repeatAfter as real then
        (Target(Some(since), Some(now)), [Event(Repeat, name, seen.problem, seen.lag, badFor)])
      else (Target(Some(since), alertedAt), [])
  }

  //// One tick

  datatype State = State(targets: map<string, Target>, outbox: map<string, seq<Event>>, lastRun: Option<real>)

  /** `order` lists the saved targets in the order of the state file; `accepts` says how much each channel takes. */
  datatype Tick = Tick(cfg: Config, now: real, seen: map<string, Observation>, order: seq<string>, accepts: map<string, nat>)

  function Gap(cfg: Config): real {
    if 2 * cfg.alertAfter > 600 then (2 * cfg.alertAfter) as real else 600.0
  }

  /** The watchdog was not running, or the clock went backwards, since the last tick. */
  predicate IsUnobserved(s: State, t: Tick) {
    s.lastRun.Some? && (t.now - s.lastRun.value > Gap(t.cfg) || t.now < s.lastRun.value)
  }

  /** The saved target, without the time that nobody watched. */
  function Before(s: State, t: Tick, name: string): Target {
    var saved := if name in s.targets then s.targets[name] else CLEAR;
    if IsUnobserved(s, t) && saved.badSince.Some? && saved.alertedAt.None? then Target(Some(t.now), None) else saved
  }

  /** A target whose probe fails is unreachable. */
  function Seen(t: Tick, name: string): Observation {
    if name in t.seen then t.seen[name] else Observation(Some("unreachable"), None)
  }

  function Evaluated(s: State, t: Tick, name: string): (Target, seq<Event>) {
    Evaluate(Before(s, t, name), name, Seen(t, name), t.now, t.cfg)
  }

  function TargetEvents(s: State, t: Tick, names: seq<string>): seq<Event> {
    if names == [] then []
    else TargetEvents(s, t, names[..|names| - 1]) + Evaluated(s, t, names[|names| - 1]).1
  }

  predicate IsDropped(s: State, t: Tick, name: string) {
    name !in t.cfg.targets && name in s.targets && s.targets[name].alertedAt.Some?
  }

  function RemovedEvent(s: State, t: Tick, name: string): seq<Event> {
    if IsDropped(s, t, name) then [Event(Removed, name, None, None, 0.0)] else []
  }

  function RemovedEvents(s: State, t: Tick, names: seq<string>): seq<Event> {
    if names == [] then []
    else RemovedEvents(s, t, names[..|names| - 1]) + RemovedEvent(s, t, names[|names| - 1])
  }

  function Messages(s: State, t: Tick): seq<Event> {
    TargetEvents(s, t, t.cfg.targets) + RemovedEvents(s, t, t.order)
  }

  function LastOf(q: seq<Event>): seq<Event> {
    if |q| > OUTBOX_LIMIT then q[|q| - OUTBOX_LIMIT..] else q
  }

  function Saved(outbox: map<string, seq<Event>>, channel: string): seq<Event> {
    if channel in outbox then outbox[channel] else []
  }

  /** What a channel is offered when these messages are new. */
  function Offered(outbox: map<string, seq<Event>>, channel: string, messages: seq<Event>): seq<Event> {
    LastOf(Saved(outbox, channel) + messages)
  }

  function Willing(t: Tick, channel: string): nat {
    if channel in t.accepts then t.accepts[channel] else 0
  }

  function Min(a: nat, b: nat): nat {
    if a < b then a else b
  }

  /** What a channel that takes `willing` messages leaves. */
  function Left(offered: seq<Event>, willing: nat): seq<Event> {
    offered[Min(willing, |offered|)..]
  }

  function Queue(outbox: map<string, seq<Event>>, messages: seq<Event>, t: Tick, channel: string): seq<Event> {
    Left(Offered(outbox, channel, messages), Willing(t, channel))
  }

  function Tabulate<V>(names: seq<string>, f: string -> V): map<string, V> {
    map name | name in names :: f(name)
  }

  lemma {:induction false} TabulateStep<V>(front: seq<string>, last: string, f: string -> V)
    ensures Tabulate(front + [last], f) == Tabulate(front, f)[last := f(last)]
  {
  }

  function NextOutbox(outbox: map<string, seq<Event>>, messages: seq<Event>, t: Tick, channels: seq<string>)
    : map<string, seq<Event>>
  {
    Tabulate(channels, channel => Queue(outbox, messages, t, channel))
  }

  function NextTargets(s: State, t: Tick, names: seq<string>): map<string, Target> {
    Tabulate(names, name => Evaluated(s, t, name).0)
  }

  function Next(s: State, t: Tick): State {
    State(NextTargets(s, t, t.cfg.targets), NextOutbox(s.outbox, Messages(s, t), t, t.cfg.channels), Some(t.now))
  }

  lemma {:induction false} NextOutboxStep(outbox: map<string, seq<Event>>, messages: seq<Event>, t: Tick,
                                          front: seq<string>, last: string)
    ensures NextOutbox(outbox, messages, t, front + [last])
         == NextOutbox(outbox, messages, t, front)[last := Queue(outbox, messages, t, last)]
  {
    TabulateStep(front, last, channel => Queue(outbox, messages, t, channel));
  }

  lemma {:induction false} NextTargetsStep(s: State, t: Tick, front: seq<string>, last: string)
    ensures NextTargets(s, t, front + [last]) == NextTargets(s, t, front)[last := Evaluated(s, t, last).0]
  {
    TabulateStep(front, last, name => Evaluated(s, t, name).0);
  }

  //// The program

  class Monitor {
    var targets: map<string, Target>
    var outbox: map<string, seq<Event>>
    var lastRun: Option<real>

    constructor ()
      ensures Contents() == State(map[], map[], None)
    {
      targets, outbox, lastRun := map[], map[], None;
    }

    function Contents(): State
      reads this
    {
      State(targets, outbox, lastRun)
    }

    /** Evaluate the configured targets in order. */
    method CheckTargets(t: Tick) returns (checked: map<string, Target>, messages: seq<Event>)
      ensures checked == NextTargets(Contents(), t, t.cfg.targets)
      ensures messages == TargetEvents(Contents(), t, t.cfg.targets)
    {
      checked, messages := map[], [];
      var names := t.cfg.targets;
      for i := 0 to |names|
        invariant checked == NextTargets(Contents(), t, names[..i])
        invariant messages == TargetEvents(Contents(), t, names[..i])
      {
        var (after, events) := Evaluate(Before(Contents(), t, names[i]), names[i], Seen(t, names[i]), t.now, t.cfg);
        checked := checked[names[i] := after];
        messages := messages + events;
        assert names[..i + 1] == names[..i] + [names[i]];
        assert names[..i + 1][..i] == names[..i];
        NextTargetsStep(Contents(), t, names[..i], names[i]);
      }
      assert names[..|names|] == names;
    }

    method NoteRemoved(t: Tick, messages0: seq<Event>) returns (messages: seq<Event>)
      ensures messages == messages0 + RemovedEvents(Contents(), t, t.order)
    {
      messages := messages0;
      for i := 0 to |t.order|
        invariant messages == messages0 + RemovedEvents(Contents(), t, t.order[..i])
      {
        assert t.order[..i + 1][..i] == t.order[..i];
        if IsDropped(Contents(), t, t.order[i]) {
          messages := messages + [Event(Removed, t.order[i], None, None, 0.0)];
        }
      }
      assert t.order[..|t.order|] == t.order;
    }

    /** Offer a channel its messages, oldest first, until it refuses one. */
    method Deliver(offered: seq<Event>, willing: nat) returns (sent: seq<Event>, queue: seq<Event>)
      ensures queue == Left(offered, willing)
      ensures sent == offered[..Min(willing, |offered|)]
    {
      sent, queue := [], offered;
      while queue != []
        invariant |sent| <= willing && |sent| <= |offered|
        invariant sent == offered[..|sent|] && queue == offered[|sent|..]
        decreases |queue|
      {
        if |sent| >= willing {
          break;
        }
        sent, queue := sent + [queue[0]], queue[1..];
      }
    }

    /** Offer every configured channel its queue; one channel's refusal does not touch the others. */
    method DeliverAll(t: Tick, messages: seq<Event>) returns (pending: map<string, seq<Event>>)
      ensures pending == NextOutbox(outbox, messages, t, t.cfg.channels)
    {
      pending := map[];
      var channels := t.cfg.channels;
      for i := 0 to |channels|
        invariant pending == NextOutbox(outbox, messages, t, channels[..i])
      {
        var c := channels[i];
        var offered := LastOf((if c in outbox then outbox[c] else []) + messages);
        var _, queue := Deliver(offered, Willing(t, c));
        pending := pending[c := queue];
        NextOutboxStep(outbox, messages, t, channels[..i], c);
        assert channels[..i + 1] == channels[..i] + [c];
      }
      assert channels[..|channels|] == channels;
    }

    method RunOnce(t: Tick) returns (messages: seq<Event>)
      modifies this
      ensures messages == Messages(old(Contents()), t)
      ensures Contents() == Next(old(Contents()), t)
    {
      var checked, events := CheckTargets(t);
      messages := NoteRemoved(t, events);
      var pending := DeliverAll(t, messages);
      targets, outbox, lastRun := checked, pending, Some(t.now);
    }
  }
}
