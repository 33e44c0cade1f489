/** What the watchdog promises over every sequence of ticks: well-formed incidents, justified alerts, timely repeats. */
module WatchdogRuns {
  import opened Prelude
  import opened Watchdog

  const EMPTY := State(map[], map[], None)

  /** The state after the ticks, from an empty state file. */
  function After(ticks: seq<Tick>): State {
    if ticks == [] then EMPTY else Next(After(ticks[..|ticks| - 1]), ticks[|ticks| - 1])
  }

  lemma {:induction false} AfterStep(ticks: seq<Tick>, n: nat)
    requires n < |ticks|
    ensures After(ticks[..n + 1]) == Next(After(ticks[..n]), ticks[n])
  {
    assert ticks[..n + 1][..n] == ticks[..n];
  }

  predicate AreDistinct(names: seq<string>) {
    forall i, j | 0 <= i < j < |names| :: names[i] != names[j]
  }

  /** Target names are unique, and `order` lists the saved targets. */
  predicate IsProper(s: State, t: Tick) {
    && AreDistinct(t.cfg.targets)
    && AreDistinct(t.order)
    && (forall name | name in t.order :: name in s.targets)
    && (forall name | name in s.targets :: name in t.order)
  }

  //// The events of one target

  function Of(events: seq<Event>, name: string): seq<Event> {
    if events == [] then []
    else
      var e := events[|events| - 1];
      Of(events[..|events| - 1], name) + if e.target == name then [e] else []
  }

  /** The events that a tick owes to a target. */
  function Owed(s: State, t: Tick, name: string): seq<Event> {
    if name in t.cfg.targets then Evaluated(s, t, name).1
    else RemovedEvent(s, t, name)
  }

  lemma {:induction false} OfConcat(a: seq<Event>, b: seq<Event>, name: string)
    ensures Of(a + b, name) == Of(a, name) + Of(b, name)
    decreases |b|
  {
    if b == [] {
      assert a + b == a;
    } else {
      assert (a + b)[..|a + b| - 1] == a + b[..|b| - 1];
      OfConcat(a, b[..|b| - 1], name);
    }
  }

  lemma {:induction false} OfSingle(events: seq<Event>, name: string)
    requires |events| <= 1
    ensures Of(events, name) == if events != [] && events[0].target == name then events else []
  {
    if events != [] {
      assert events[..0] == [];
    }
  }

  lemma {:induction false} EvaluatedShape(s: State, t: Tick, name: string)
    ensures |Evaluated(s, t, name).1| <= 1
    ensures Evaluated(s, t, name).1 != [] ==> Evaluated(s, t, name).1[0].target == name
  {
  }

  lemma {:induction false} TargetEventsOf(s: State, t: Tick, names: seq<string>, name: string)
    requires AreDistinct(names)
    ensures Of(TargetEvents(s, t, names), name) == if name in names then Evaluated(s, t, name).1 else []
  {
    if names != [] {
      var front, last := names[..|names| - 1], names[|names| - 1];
      TargetEventsOf(s, t, front, name);
      OfConcat(TargetEvents(s, t, front), Evaluated(s, t, last).1, name);
      EvaluatedShape(s, t, last);
      OfSingle(Evaluated(s, t, last).1, name);
      assert last !in front;
    }
  }

  lemma {:induction false} RemovedEventsOf(s: State, t: Tick, names: seq<string>, name: string)
    requires AreDistinct(names)
    ensures Of(RemovedEvents(s, t, names), name) == if name in names then RemovedEvent(s, t, name) else []
  {
    if names != [] {
      var front, last := names[..|names| - 1], names[|names| - 1];
      RemovedEventsOf(s, t, front, name);
      OfConcat(RemovedEvents(s, t, front), RemovedEvent(s, t, last), name);
      OfSingle(RemovedEvent(s, t, last), name);
      assert last !in front;
    }
  }

  /** The messages of a tick contain, for every target, exactly what the tick owes it. */
  lemma {:induction false} MessagesAreOwed(s: State, t: Tick, name: string)
    requires IsProper(s, t)
    ensures Of(Messages(s, t), name) == Owed(s, t, name)
  {
    TargetEventsOf(s, t, t.cfg.targets, name);
    RemovedEventsOf(s, t, t.order, name);
    OfConcat(TargetEvents(s, t, t.cfg.targets), RemovedEvents(s, t, t.order), name);
  }

  //// Incidents: (alert repeat* (recovered | removed))*

  /** Whether an incident is open after these events; `None` if they are not such a sequence. */
  function Incident(events: seq<Event>): Option<bool> {
    if events == [] then Some(false)
    else
      var open := Incident(events[..|events| - 1]);
      match events[|events| - 1].kind
      case Alert => if open == Some(false) then Some(true) else None
      case Repeat => if open == Some(true) then Some(true) else None
      case Recovered => if open == Some(true) then Some(false) else None
      case Removed => if open == Some(true) then Some(false) else None
  }

  /** All messages of a run. */
  function Generated(ticks: seq<Tick>): seq<Event> {
    if ticks == [] then []
    else Generated(ticks[..|ticks| - 1]) + Messages(After(ticks[..|ticks| - 1]), ticks[|ticks| - 1])
  }

  predicate AreProper(ticks: seq<Tick>) {
    ticks != [] ==>
      AreProper(ticks[..|ticks| - 1]) && IsProper(After(ticks[..|ticks| - 1]), ticks[|ticks| - 1])
  }

  predicate IsAlerted(s: State, name: string) {
    name in s.targets && s.targets[name].alertedAt.Some?
  }

  lemma {:induction false} NextTarget(s: State, t: Tick, name: string)
    ensures name in Next(s, t).targets <==> name in t.cfg.targets
    ensures name in t.cfg.targets ==> Next(s, t).targets[name] == Evaluated(s, t, name).0
  {
  }

  /** At most one event, and the one that takes a target from `before` alerted to `after` alerted. */
  predicate Moves(before: bool, events: seq<Event>, after: bool) {
    && |events| <= 1
    && if events == [] then before == after
       else match events[0].kind
         case Alert => !before && after
         case Repeat => before && after
         case Recovered => before && !after
         case Removed => before && !after
  }

  lemma {:induction false} EvaluateMoves(saved: Target, name: string, seen: Observation, now: real, cfg: Config)
    ensures var (after, events) := Evaluate(saved, name, seen, now, cfg);
            Moves(saved.alertedAt.Some?, events, after.alertedAt.Some?)
  {
  }

  lemma {:induction false} OwedMoves(s: State, t: Tick, name: string)
    ensures Moves(IsAlerted(s, name), Owed(s, t, name), IsAlerted(Next(s, t), name))
  {
    NextTarget(s, t, name);
    if name in t.cfg.targets {
      EvaluateMoves(Before(s, t, name), name, Seen(t, name), t.now, t.cfg);
    }
  }

  lemma {:induction false} IncidentMoves(events: seq<Event>, before: bool, owed: seq<Event>, after: bool)
    requires Incident(events) == Some(before) && Moves(before, owed, after)
    ensures Incident(events + owed) == Some(after)
  {
    if owed == [] {
      assert events + owed == events;
    } else {
      assert (events + owed)[..|events + owed| - 1] == events;
    }
  }

  /** Every run: a target's events are incidents, and one is open exactly while the target is saved as alerted. */
  lemma {:induction false} EventsAreIncidents(ticks: seq<Tick>, name: string)
    requires AreProper(ticks)
    ensures Incident(Of(Generated(ticks), name)) == Some(IsAlerted(After(ticks), name))
  {
    if ticks != [] {
      var front, t := ticks[..|ticks| - 1], ticks[|ticks| - 1];
      EventsAreIncidents(front, name);
      MessagesAreOwed(After(front), t, name);
      OfConcat(Generated(front), Messages(After(front), t), name);
      OwedMoves(After(front), t, name);
      IncidentMoves(Of(Generated(front), name), IsAlerted(After(front), name), Owed(After(front), t, name),
                    IsAlerted(After(ticks), name));
    }
  }

  //// Alerts

  /** What is wrong with a target, if anything: one that could not be probed is unreachable. */
  function Problem(t: Tick, name: string): Option<string> {
    if name in t.seen then t.seen[name].problem else Some("unreachable")
  }

  function Lag(t: Tick, name: string): Option<nat> {
    if name in t.seen then t.seen[name].lag else None
  }

  predicate IsBad(t: Tick, name: string) {
    name in t.cfg.targets && Problem(t, name).Some?
  }

  /** The watchdog saw the whole time between the two ticks: ten minutes, or twice the time before an alert. */
  predicate AreLinked(before: Tick, t: Tick) {
    var passed := t.now - before.now;
    0.0 <= passed && (passed <= 600.0 || passed <= (2 * t.cfg.alertAfter) as real)
  }

  /** Where the unbroken stretch of bad observations that ends with tick `n` begins. */
  function StretchStart(ticks: seq<Tick>, n: nat, name: string): (i: nat)
    requires n < |ticks|
    ensures i <= n
  {
    if n > 0 && IsBad(ticks[n - 1], name) && AreLinked(ticks[n - 1], ticks[n]) then StretchStart(ticks, n - 1, name)
    else n
  }

  /** It is bad all along, the clock never goes back in it, and it has no gap. */
  lemma {:induction false} StretchIsUnbroken(ticks: seq<Tick>, n: nat, name: string)
    requires n < |ticks| && IsBad(ticks[n], name)
    ensures var i := StretchStart(ticks, n, name);
            && (forall k | i <= k <= n :: IsBad(ticks[k], name))
            && (forall k | i < k <= n :: AreLinked(ticks[k - 1], ticks[k]))
            && ticks[i].now <= ticks[n].now
  {
    if n > 0 && IsBad(ticks[n - 1], name) && AreLinked(ticks[n - 1], ticks[n]) {
      StretchIsUnbroken(ticks, n - 1, name);
    }
  }

  lemma {:induction false} LastRunIsLastTick(ticks: seq<Tick>)
    ensures After(ticks).lastRun == if ticks == [] then None else Some(ticks[|ticks| - 1].now)
  {
  }

  /** A target that is not alerted enters a tick with the beginning of its stretch, or with nothing if one begins now. */
  predicate Carries(saved: Target, start: real, begins: bool) {
    && saved.alertedAt.None?
    && (saved.badSince == Some(start) || (begins && saved.badSince.None?))
  }

  lemma {:induction false} EvaluateUnalerted(saved: Target, name: string, seen: Observation, now: real, cfg: Config,
                                             start: real, begins: bool)
    requires Carries(saved, start, begins) && start <= now && (begins ==> start == now)
    ensures var (after, events) := Evaluate(saved, name, seen, now, cfg);
            var due := now - start >= cfg.alertAfter as real;
            && (seen.problem.None? ==> after == CLEAR && events == [])
            && (seen.problem.Some? && due ==>
                  after == Target(Some(start), Some(now)) && events == [Event(Alert, name, seen.problem, seen.lag, now - start)])
            && (seen.problem.Some? && !due ==> after == Target(Some(start), None) && events == [])
  {
  }

  lemma {:induction false} UnalertedOwed(s: State, t: Tick, name: string, start: real, begins: bool)
    requires name in t.cfg.targets
    requires Carries(Before(s, t, name), start, begins) && start <= t.now && (begins ==> start == t.now)
    ensures Has(Owed(s, t, name), Alert) <==> IsBad(t, name) && t.now - start >= t.cfg.alertAfter as real
    ensures Has(Owed(s, t, name), Alert) ==> Owed(s, t, name)[0].badFor == t.now - start
    ensures !IsBad(t, name) ==> Evaluated(s, t, name).0 == CLEAR
    ensures IsBad(t, name) && Evaluated(s, t, name).0.alertedAt.None? ==>
              Evaluated(s, t, name).0 == Target(Some(start), None)
  {
    EvaluateUnalerted(Before(s, t, name), name, Seen(t, name), t.now, t.cfg, start, begins);
  }

  /** What `run_once` makes of a saved target that is not alerted. */
  lemma {:induction false} BeforeUnalerted(s: State, last: Tick, t: Tick, name: string, start: real)
    requires s.lastRun == Some(last.now) && !IsAlerted(s, name)
    requires name in s.targets ==>
               s.targets[name].badSince == if IsBad(last, name) then Some(start) else None
    requires !IsBad(last, name) ==> name !in s.targets || s.targets[name] == CLEAR
    requires IsBad(last, name) ==> name in s.targets && start <= last.now
    ensures var linked := IsBad(last, name) && AreLinked(last, t);
            Carries(Before(s, t, name), if linked then start else t.now, !linked)
  {
  }

  lemma {:induction false} BeforeIsStretch(ticks: seq<Tick>, n: nat, name: string)
    requires n < |ticks| && !IsAlerted(After(ticks[..n]), name)
    ensures var i := StretchStart(ticks, n, name);
            && Carries(Before(After(ticks[..n]), ticks[n], name), ticks[i].now, i == n)
            && ticks[i].now <= ticks[n].now
    decreases n, 1
  {
    if n > 0 {
      var s, last := After(ticks[..n]), ticks[n - 1];
      LastRunIsLastTick(ticks[..n]);
      AfterStep(ticks, n - 1);
      NextTarget(After(ticks[..n - 1]), last, name);
      if name in last.cfg.targets {
        BadSinceIsStretchStart(ticks, n - 1, name);
      }
      if IsBad(last, name) {
        StretchIsUnbroken(ticks, n - 1, name);
      }
      BeforeUnalerted(s, last, ticks[n], name, ticks[StretchStart(ticks, n - 1, name)].now);
    }
  }

  /** A bad target that is not alerted remembers exactly when its stretch began; a good one remembers nothing. */
  lemma {:induction false} BadSinceIsStretchStart(ticks: seq<Tick>, n: nat, name: string)
    requires n < |ticks| && name in ticks[n].cfg.targets && !IsAlerted(After(ticks[..n + 1]), name)
    ensures var s := After(ticks[..n + 1]);
            && name in s.targets
            && s.targets[name]
            == if IsBad(ticks[n], name) then Target(Some(ticks[StretchStart(ticks, n, name)].now), None) else CLEAR
    decreases n, 2
  {
    var s, t := After(ticks[..n]), ticks[n];
    AfterStep(ticks, n);
    NextTarget(s, t, name);
    if IsBad(t, name) {
      AlertedStays(s, t, name);
      BeforeIsStretch(ticks, n, name);
      var i := StretchStart(ticks, n, name);
      UnalertedOwed(s, t, name, ticks[i].now, i == n);
    }
  }

  /** An alerted target that is still bad stays alerted, so one that is not alerted was not. */
  lemma {:induction false} AlertedStays(s: State, t: Tick, name: string)
    requires IsBad(t, name) && !IsAlerted(Next(s, t), name)
    ensures !IsAlerted(s, name)
  {
  }

  /** A tick owes a target at most one event, and it is of this kind. */
  predicate Has(owed: seq<Event>, kind: Kind) {
    |owed| == 1 && owed[0].kind == kind
  }

  lemma {:induction false} AlertedIsNotAlertedAgain(s: State, t: Tick, name: string)
    requires IsAlerted(s, name)
    ensures !Has(Owed(s, t, name), Alert)
  {
  }

  /** A tick alerts exactly when no incident is open and the bad stretch it ends is long enough, and says how long it was. */
  lemma {:induction false} AlertsAreJustified(ticks: seq<Tick>, n: nat, name: string)
    requires n < |ticks| && name in ticks[n].cfg.targets
    ensures var s, t := After(ticks[..n]), ticks[n];
            var stretch := t.now - ticks[StretchStart(ticks, n, name)].now;
            && (Has(Owed(s, t, name), Alert)
                <==> !IsAlerted(s, name) && IsBad(t, name) && stretch >= t.cfg.alertAfter as real)
            && (Has(Owed(s, t, name), Alert) ==> Owed(s, t, name)[0].badFor == stretch)
  {
    var s, t := After(ticks[..n]), ticks[n];
    if IsAlerted(s, name) {
      AlertedIsNotAlertedAgain(s, t, name);
    } else {
      BeforeIsStretch(ticks, n, name);
      var i := StretchStart(ticks, n, name);
      UnalertedOwed(s, t, name, ticks[i].now, i == n);
    }
  }

  //// Repeats and recoveries

  /** The events that the first `n` ticks owed a target, tick by tick. */
  function Events(ticks: seq<Tick>, n: nat, name: string): (events: seq<seq<Event>>)
    requires n <= |ticks|
    ensures |events| == n
  {
    if n == 0 then []
    else Events(ticks, n - 1, name) + [Owed(After(ticks[..n - 1]), ticks[n - 1], name)]
  }

  /** A tick tells about an open incident. */
  predicate IsNotice(owed: seq<Event>) {
    Has(owed, Alert) || Has(owed, Repeat)
  }

  /** The tick of the last alert or repeat of the open incident, if one is open. */
  function LastNotice(events: seq<seq<Event>>): (m: Option<nat>)
    ensures m.Some? ==> m.value < |events|
  {
    if events == [] then None
    else
      var n := |events| - 1;
      if events[n] == [] then LastNotice(events[..n]) else if IsNotice(events[n]) then Some(n) else None
  }

  /** The tick of the alert that opened the open incident, if one is open. */
  function OpenedAt(events: seq<seq<Event>>): (a: Option<nat>)
    ensures a.Some? ==> a.value < |events|
  {
    if events == [] then None
    else
      var n := |events| - 1;
      if Has(events[n], Alert) then Some(n)
      else if events[n] == [] || Has(events[n], Repeat) then OpenedAt(events[..n])
      else None
  }

  /** The earliest clock reading of the ticks from `m` to before `n`. */
  function Earliest(ticks: seq<Tick>, m: nat, n: nat): real
    requires m < n <= |ticks|
    decreases n
  {
    var now := ticks[n - 1].now;
    if n == m + 1 then now
    else
      var before := Earliest(ticks, m, n - 1);
      if before > now then now else before
  }

  /** While the clock does not go back, that is the first one. */
  lemma {:induction false} EarliestIsFirst(ticks: seq<Tick>, m: nat, n: nat)
    requires m < n <= |ticks|
    requires forall k | m < k < n :: ticks[m].now <= ticks[k].now
    ensures Earliest(ticks, m, n) == ticks[m].now
  {
    if n > m + 1 {
      EarliestIsFirst(ticks, m, n - 1);
    }
  }

  lemma {:induction false} OpenMoves(events: seq<seq<Event>>, before: bool, owed: seq<Event>, after: bool)
    requires OpenedAt(events).Some? == LastNotice(events).Some? == before && Moves(before, owed, after)
    ensures OpenedAt(events + [owed]).Some? == LastNotice(events + [owed]).Some? == after
  {
    assert (events + [owed])[..|events|] == events;
  }

  /** Every run: a target is saved as alerted exactly while an incident is open. */
  lemma {:induction false} OpenIsAlerted(ticks: seq<Tick>, n: nat, name: string)
    requires n <= |ticks|
    ensures var events := Events(ticks, n, name);
            OpenedAt(events).Some? == LastNotice(events).Some? == IsAlerted(After(ticks[..n]), name)
  {
    if n > 0 {
      var s, t := After(ticks[..n - 1]), ticks[n - 1];
      OpenIsAlerted(ticks, n - 1, name);
      AfterStep(ticks, n - 1);
      OwedMoves(s, t, name);
      OpenMoves(Events(ticks, n - 1, name), IsAlerted(s, name), Owed(s, t, name), IsAlerted(Next(s, t), name));
    }
  }

  /** What an evaluation does to the alert time. */
  lemma {:induction false} EvaluateAlertTime(saved: Target, name: string, seen: Observation, now: real, cfg: Config)
    ensures var (after, events) := Evaluate(saved, name, seen, now, cfg);
            && (IsNotice(events) ==> after.alertedAt == Some(now))
            && (events == [] ==> after.alertedAt == Clamp(saved.alertedAt, now))
  {
  }

  /** The saved alert time of a target. */
  function AlertTime(s: State, name: string): Option<real> {
    if name in s.targets then s.targets[name].alertedAt else None
  }

  lemma {:induction false} NextAlertTime(s: State, t: Tick, name: string)
    ensures var owed := Owed(s, t, name);
            AlertTime(Next(s, t), name)
            == if IsNotice(owed) then Some(t.now) else if owed == [] then Clamp(AlertTime(s, name), t.now) else None
  {
    NextTarget(s, t, name);
    OwedMoves(s, t, name);
    if name in t.cfg.targets {
      EvaluateAlertTime(Before(s, t, name), name, Seen(t, name), t.now, t.cfg);
    }
  }

  /** The earliest clock reading since the last alert or repeat. */
  function NoticeTime(ticks: seq<Tick>, events: seq<seq<Event>>): Option<real>
    requires |events| <= |ticks|
  {
    var m := LastNotice(events);
    if m.None? then None else Some(Earliest(ticks, m.value, |events|))
  }

  lemma {:induction false} NextNoticeTime(ticks: seq<Tick>, events: seq<seq<Event>>, owed: seq<Event>)
    requires |events| < |ticks|
    ensures var now := ticks[|events|].now;
            NoticeTime(ticks, events + [owed])
            == if IsNotice(owed) then Some(now) else if owed == [] then Clamp(NoticeTime(ticks, events), now) else None
  {
    assert (events + [owed])[..|events|] == events;
  }

  lemma {:induction false} AlertTimeStep(ticks: seq<Tick>, events: seq<seq<Event>>, s: State, name: string)
    requires |events| < |ticks| && AlertTime(s, name) == NoticeTime(ticks, events)
    ensures var t := ticks[|events|];
            AlertTime(Next(s, t), name) == NoticeTime(ticks, events + [Owed(s, t, name)])
  {
    var t := ticks[|events|];
    NextAlertTime(s, t, name);
    NextNoticeTime(ticks, events, Owed(s, t, name));
  }

  /** Every run: the saved alert time is the earliest clock reading since the last notice of the open incident. */
  lemma {:induction false} AlertedAtIsEarliest(ticks: seq<Tick>, n: nat, name: string)
    requires n <= |ticks|
    ensures AlertTime(After(ticks[..n]), name) == NoticeTime(ticks, Events(ticks, n, name))
  {
    if n > 0 {
      AlertedAtIsEarliest(ticks, n - 1, name);
      AfterStep(ticks, n - 1);
      AlertTimeStep(ticks, Events(ticks, n - 1, name), After(ticks[..n - 1]), name);
    }
  }

  /** What an evaluation of an alerted target owes. */
  lemma {:induction false} EvaluateAlerted(saved: Target, name: string, seen: Observation, now: real, cfg: Config)
    requires saved.alertedAt.Some?
    ensures var events := Evaluate(saved, name, seen, now, cfg).1;
            var since := Clamp(saved.alertedAt, now).value;
            && (Has(events, Recovered) <==> seen.problem.None?)
            && (Has(events, Repeat) <==> seen.problem.Some? && now - since >= cfg.repeatAfter as real)
  {
  }

  lemma {:induction false} OwedWhenAlerted(s: State, t: Tick, name: string)
    requires IsAlerted(s, name)
    ensures var since := Clamp(s.targets[name].alertedAt, t.now).value;
            && (Has(Owed(s, t, name), Repeat) <==> IsBad(t, name) && t.now - since >= t.cfg.repeatAfter as real)
            && (Has(Owed(s, t, name), Recovered) <==> name in t.cfg.targets && !IsBad(t, name))
            && (Has(Owed(s, t, name), Removed) <==> name !in t.cfg.targets)
  {
    if name in t.cfg.targets {
      EvaluateAlerted(Before(s, t, name), name, Seen(t, name), t.now, t.cfg);
      EvaluateNeverRemoves(Before(s, t, name), name, Seen(t, name), t.now, t.cfg);
    }
  }

  lemma {:induction false} EvaluateNeverRemoves(saved: Target, name: string, seen: Observation, now: real, cfg: Config)
    ensures !Has(Evaluate(saved, name, seen, now, cfg).1, Removed)
  {
  }

  /**
   Every run: a tick repeats exactly when an incident is open, the target is bad, and the configured time has passed
   since the earliest clock reading from the last alert or repeat on; it reports a recovery exactly when an incident
   is open and the target is good; and a removal exactly when an incident is open and the target is not configured.
   */
  lemma {:induction false} RepeatsAreTimely(ticks: seq<Tick>, n: nat, name: string)
    requires n < |ticks|
    ensures var owed, t := Owed(After(ticks[..n]), ticks[n], name), ticks[n];
            var m := LastNotice(Events(ticks, n, name));
            && (Has(owed, Repeat) <==>
                m.Some? && IsBad(t, name) && t.now - Earliest(ticks, m.value, n + 1) >= t.cfg.repeatAfter as real)
            && (Has(owed, Recovered) <==> m.Some? && name in t.cfg.targets && !IsBad(t, name))
            && (Has(owed, Removed) <==> m.Some? && name !in t.cfg.targets)
  {
    var s, t := After(ticks[..n]), ticks[n];
    OpenIsAlerted(ticks, n, name);
    AlertedAtIsEarliest(ticks, n, name);
    OwedMoves(s, t, name);
    if IsAlerted(s, name) {
      OwedWhenAlerted(s, t, name);
    }
  }

  //// Every event, told by the history alone

  /** It never goes below its first clock reading. */
  lemma {:induction false} StretchAscends(ticks: seq<Tick>, n: nat, name: string)
    requires n < |ticks|
    ensures forall k | StretchStart(ticks, n, name) <= k <= n :: ticks[StretchStart(ticks, n, name)].now <= ticks[k].now
  {
    if n > 0 && IsBad(ticks[n - 1], name) && AreLinked(ticks[n - 1], ticks[n]) {
      StretchAscends(ticks, n - 1, name);
    }
  }

  /** What an alerted target has been bad since: the earliest clock reading from the stretch that was alerted on. */
  function BadSince(ticks: seq<Tick>, events: seq<seq<Event>>, name: string): Option<real>
    requires |events| <= |ticks|
  {
    var a := OpenedAt(events);
    if a.None? then None else Some(Earliest(ticks, StretchStart(ticks, a.value, name), |events|))
  }

  /** What an evaluation of an alerted target tells and remembers. */
  lemma {:induction false} EvaluateOpen(saved: Target, name: string, seen: Observation, now: real, cfg: Config)
    requires saved.alertedAt.Some? && saved.badSince.Some?
    ensures var (after, events) := Evaluate(saved, name, seen, now, cfg);
            var since := Clamp(saved.badSince, now).value;
            var due := now - Clamp(saved.alertedAt, now).value >= cfg.repeatAfter as real;
            if seen.problem.None? then
              events == [Event(Recovered, name, None, seen.lag, if since == 0.0 then 0.0 else now - since)]
            else
              && after.badSince == Some(since)
              && events == if due then [Event(Repeat, name, seen.problem, seen.lag, now - since)] else []
  {
  }

  lemma {:induction false} BeforeAlerted(s: State, t: Tick, name: string)
    requires IsAlerted(s, name)
    ensures Before(s, t, name) == s.targets[name]
  {
  }

  lemma {:induction false} BadSinceStep(s: State, t: Tick, name: string)
    requires IsAlerted(s, name) && s.targets[name].badSince.Some? && IsAlerted(Next(s, t), name)
    ensures Next(s, t).targets[name].badSince == Clamp(s.targets[name].badSince, t.now)
    ensures Owed(s, t, name) == [] || Has(Owed(s, t, name), Repeat)
  {
    NextTarget(s, t, name);
    OwedMoves(s, t, name);
    BeforeAlerted(s, t, name);
    EvaluateOpen(s.targets[name], name, Seen(t, name), t.now, t.cfg);
  }

  lemma {:induction false} BadSinceAtAlert(ticks: seq<Tick>, n: nat, name: string)
    requires n < |ticks| && !IsAlerted(After(ticks[..n]), name) && IsAlerted(After(ticks[..n + 1]), name)
    ensures Has(Owed(After(ticks[..n]), ticks[n], name), Alert)
    ensures var i := StretchStart(ticks, n, name);
            After(ticks[..n + 1]).targets[name].badSince == Some(Earliest(ticks, i, n + 1))
  {
    var s, t, i := After(ticks[..n]), ticks[n], StretchStart(ticks, n, name);
    AfterStep(ticks, n);
    NextTarget(s, t, name);
    OwedMoves(s, t, name);
    BeforeIsStretch(ticks, n, name);
    EvaluateUnalerted(Before(s, t, name), name, Seen(t, name), t.now, t.cfg, ticks[i].now, i == n);
    StretchAscends(ticks, n, name);
    EarliestIsFirst(ticks, i, n + 1);
  }

  lemma {:induction false} NextBadSince(ticks: seq<Tick>, events: seq<seq<Event>>, owed: seq<Event>, name: string)
    requires |events| < |ticks|
    ensures var n := |events|;
            && (Has(owed, Alert) ==>
                  BadSince(ticks, events + [owed], name) == Some(Earliest(ticks, StretchStart(ticks, n, name), n + 1)))
            && (owed == [] || Has(owed, Repeat) ==>
                  BadSince(ticks, events + [owed], name) == Clamp(BadSince(ticks, events, name), ticks[n].now))
  {
    assert (events + [owed])[..|events|] == events;
  }

  /** Every run: an alerted target has been bad since the earliest clock reading of its incident. */
  lemma {:induction false} BadSinceIsEarliest(ticks: seq<Tick>, n: nat, name: string)
    requires n <= |ticks| && IsAlerted(After(ticks[..n]), name)
    ensures BadSince(ticks, Events(ticks, n, name), name).Some?
    ensures After(ticks[..n]).targets[name].badSince == BadSince(ticks, Events(ticks, n, name), name)
  {
    OpenIsAlerted(ticks, n, name);
    if n > 0 {
      var s, t := After(ticks[..n - 1]), ticks[n - 1];
      AfterStep(ticks, n - 1);
      NextBadSince(ticks, Events(ticks, n - 1, name), Owed(s, t, name), name);
      if IsAlerted(s, name) {
        BadSinceIsEarliest(ticks, n - 1, name);
        BadSinceStep(s, t, name);
      } else {
        BadSinceAtAlert(ticks, n - 1, name);
      }
    }
  }

  /** What a tick owes a target without an open incident. */
  function OwedClosed(t: Tick, name: string, stretch: real): Option<Event> {
    if IsBad(t, name) && stretch >= t.cfg.alertAfter as real
    then Some(Event(Alert, name, Problem(t, name), Lag(t, name), stretch)) else None
  }

  /** What a tick owes a target with an open incident that went bad at `since` and was last told at `told`. */
  function OwedOpen(t: Tick, name: string, since: real, told: real): Option<Event> {
    if name !in t.cfg.targets then Some(Event(Removed, name, None, None, 0.0))
    else if !IsBad(t, name) then
      Some(Event(Recovered, name, None, Lag(t, name), if since == 0.0 then 0.0 else t.now - since))
    else if t.now - told >= t.cfg.repeatAfter as real then
      Some(Event(Repeat, name, Problem(t, name), Lag(t, name), t.now - since))
    else None
  }

  /** The event that a tick owes a target: there is at most one. */
  function OwedEvent(s: State, t: Tick, name: string): (e: Option<Event>)
    ensures Owed(s, t, name) == if e.Some? then [e.value] else []
  {
    OwedMoves(s, t, name);
    if Owed(s, t, name) == [] then None else Some(Owed(s, t, name)[0])
  }

  lemma {:induction false} OwedWhenCarried(s: State, t: Tick, name: string, start: real, begins: bool)
    requires !IsAlerted(s, name)
    requires Carries(Before(s, t, name), start, begins) && start <= t.now && (begins ==> start == t.now)
    ensures OwedEvent(s, t, name) == OwedClosed(t, name, t.now - start)
  {
    EvaluateUnalerted(Before(s, t, name), name, Seen(t, name), t.now, t.cfg, start, begins);
  }

  lemma {:induction false} OwedWhenOpen(s: State, t: Tick, name: string)
    requires IsAlerted(s, name) && s.targets[name].badSince.Some?
    ensures OwedEvent(s, t, name)
         == OwedOpen(t, name, Clamp(s.targets[name].badSince, t.now).value, Clamp(AlertTime(s, name), t.now).value)
  {
    BeforeAlerted(s, t, name);
    if name in t.cfg.targets {
      EvaluateOpen(s.targets[name], name, Seen(t, name), t.now, t.cfg);
    }
  }

  lemma {:induction false} ClosedEvents(ticks: seq<Tick>, n: nat, name: string, s: State, t: Tick, i: nat)
    requires n < |ticks| && s == After(ticks[..n]) && t == ticks[n] && i == StretchStart(ticks, n, name)
    requires !IsAlerted(s, name)
    ensures OwedEvent(s, t, name) == OwedClosed(t, name, t.now - ticks[i].now)
  {
    BeforeIsStretch(ticks, n, name);
    OwedWhenCarried(s, t, name, ticks[i].now, i == n);
  }

  lemma {:induction false} OpenEvents(ticks: seq<Tick>, n: nat, name: string, s: State, t: Tick, events: seq<seq<Event>>)
    requires n < |ticks| && s == After(ticks[..n]) && t == ticks[n] && events == Events(ticks, n, name)
    requires IsAlerted(s, name)
    ensures OpenedAt(events).Some? && LastNotice(events).Some?
    ensures var i, m := StretchStart(ticks, OpenedAt(events).value, name), LastNotice(events).value;
            OwedEvent(s, t, name) == OwedOpen(t, name, Earliest(ticks, i, n + 1), Earliest(ticks, m, n + 1))
  {
    OpenIsAlerted(ticks, n, name);
    AlertedAtIsEarliest(ticks, n, name);
    BadSinceIsEarliest(ticks, n, name);
    OwedWhenOpen(s, t, name);
  }

  /** Every run, while no incident is open: the whole event a tick owes, told by the observations and the clock. */
  lemma {:induction false} EventsWithoutIncident(ticks: seq<Tick>, n: nat, name: string, s: State, t: Tick, i: nat)
    requires n < |ticks| && s == After(ticks[..n]) && t == ticks[n] && i == StretchStart(ticks, n, name)
    requires OpenedAt(Events(ticks, n, name)).None?
    ensures OwedEvent(s, t, name) == OwedClosed(t, name, t.now - ticks[i].now)
  {
    OpenIsAlerted(ticks, n, name);
    ClosedEvents(ticks, n, name, s, t, i);
  }

  /** Every run, while an incident is open: the whole event, told also by when it was opened and last told. */
  lemma {:induction false} EventsOfIncident(ticks: seq<Tick>, n: nat, name: string, s: State, t: Tick,
                                            events: seq<seq<Event>>)
    requires n < |ticks| && s == After(ticks[..n]) && t == ticks[n] && events == Events(ticks, n, name)
    requires OpenedAt(events).Some?
    ensures LastNotice(events).Some?
    ensures var i, m := StretchStart(ticks, OpenedAt(events).value, name), LastNotice(events).value;
            OwedEvent(s, t, name) == OwedOpen(t, name, Earliest(ticks, i, n + 1), Earliest(ticks, m, n + 1))
  {
    OpenIsAlerted(ticks, n, name);
    OpenEvents(ticks, n, name, s, t, events);
  }

  //// The order of the messages of a tick

  function TargetsOf(events: seq<Event>): seq<string> {
    if events == [] then [] else TargetsOf(events[..|events| - 1]) + [events[|events| - 1].target]
  }

  function Selected(names: seq<string>, f: string -> bool): seq<string> {
    if names == [] then []
    else Selected(names[..|names| - 1], f) + if f(names[|names| - 1]) then [names[|names| - 1]] else []
  }

  lemma {:induction false} TargetsOfMore(a: seq<Event>, b: seq<Event>)
    requires |b| <= 1
    ensures TargetsOf(a + b) == TargetsOf(a) + if b == [] then [] else [b[0].target]
  {
    if b == [] {
      assert a + b == a;
    } else {
      assert (a + b)[..|a|] == a;
    }
  }

  lemma {:induction false} TargetsOfConcat(a: seq<Event>, b: seq<Event>)
    ensures TargetsOf(a + b) == TargetsOf(a) + TargetsOf(b)
    decreases |b|
  {
    if b == [] {
      assert a + b == a;
    } else {
      assert (a + b)[..|a + b| - 1] == a + b[..|b| - 1];
      TargetsOfConcat(a, b[..|b| - 1]);
    }
  }

  lemma {:induction false} EvaluatedInOrder(s: State, t: Tick, names: seq<string>, f: string -> bool)
    requires forall name :: f(name) <==> Evaluated(s, t, name).1 != []
    ensures TargetsOf(TargetEvents(s, t, names)) == Selected(names, f)
  {
    if names != [] {
      var front, last := names[..|names| - 1], names[|names| - 1];
      EvaluatedInOrder(s, t, front, f);
      EvaluatedShape(s, t, last);
      TargetsOfMore(TargetEvents(s, t, front), Evaluated(s, t, last).1);
    }
  }

  lemma {:induction false} RemovedInOrder(s: State, t: Tick, names: seq<string>, f: string -> bool)
    requires forall name :: f(name) <==> name !in t.cfg.targets && IsAlerted(s, name)
    ensures TargetsOf(RemovedEvents(s, t, names)) == Selected(names, f)
  {
    if names != [] {
      var front, last := names[..|names| - 1], names[|names| - 1];
      RemovedInOrder(s, t, front, f);
      TargetsOfMore(RemovedEvents(s, t, front), RemovedEvent(s, t, last));
    }
  }

  /** The messages come in the order of the configuration, and then, for removed targets, of the state file. */
  lemma {:induction false} MessagesInOrder(s: State, t: Tick, speaks: string -> bool, leaves: string -> bool)
    requires forall name :: speaks(name) <==> Evaluated(s, t, name).1 != []
    requires forall name :: leaves(name) <==> name !in t.cfg.targets && IsAlerted(s, name)
    ensures TargetsOf(Messages(s, t)) == Selected(t.cfg.targets, speaks) + Selected(t.order, leaves)
  {
    EvaluatedInOrder(s, t, t.cfg.targets, speaks);
    RemovedInOrder(s, t, t.order, leaves);
    TargetsOfConcat(TargetEvents(s, t, t.cfg.targets), RemovedEvents(s, t, t.order));
  }
}
