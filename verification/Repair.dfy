/**
 The replacement of a scanner container whose readiness probe needs a shell, with rollback.

 The container daemon is a class whose requests are nondeterministic: every request may succeed,
 fail without effect, or take effect and lose its response. Reads are truthful, nobody else
 talks to the daemon, and a mutation happens before its call returns or never. A running
 container may exit, and its health may change, at any time; since only a read can tell, the
 model lets that happen when a container is inspected.
 */
module ScannerRepair {
  import opened Prelude

  type Id = nat

  datatype Endpoint = Endpoint(
    staticAddress: bool,
    aliases: Option<seq<string>>,
    links: Option<seq<string>>,
    driverOpts: Option<map<string, string>>,
    chosen: string)

  /**
   What the daemon keeps about a container besides its name and its state. `image` is the image object it runs,
   `configImage` the image it was asked for; `chosen` is what the daemon picked for an endpoint.
   */
  datatype Settings = Settings(
    image: string,
    configImage: string,
    env: seq<string>,
    probe: seq<string>,
    other: string,
    host: string,
    networks: map<string, Endpoint>)

  /** The part of an endpoint that a create request can ask for. */
  datatype Wish = Wish(aliases: Option<seq<string>>, links: Option<seq<string>>, driverOpts: Option<map<string, string>>)

  /** A create request. */
  datatype Plan = Plan(
    image: string,
    env: seq<string>,
    probe: seq<string>,
    other: string,
    host: string,
    networks: map<string, Wish>)

  datatype Container = Container(name: string, settings: Settings, running: bool, healthy: bool)

  type Containers = map<Id, Container>

  datatype Error =
    | InvalidNames
    | NotRunning
    | UnsuitableContainer
    | BackupNameExists
    | RequestFailed
    | SettingsChanged
    | ReplacementExited
    | NotReady
    | UnexpectedIdentity
    | ReplacementStillRunning
    | OriginalMissing
    | OriginalNotRestored

  //// Names and plans

  const PREFIX := "ocrypt-scanner-"
  const SHELL_PROBE := ["CMD-SHELL", "/app/service --check-ready"]
  const EXEC_PROBE := ["CMD", "/app/service", "--check-ready"]

  predicate IsScannerName(s: string) {
    && |s| > |PREFIX|
    && PREFIX <= s
    && forall i | |PREFIX| <= i < |s| :: IsSlugChar(s[i])
  }

  /** Names that are and are not a scanner's. */
  lemma ScannerNames()
    ensures IsScannerName("ocrypt-scanner-eth-2")
    ensures !IsScannerName("ocrypt-scanner-") && !IsScannerName("ocrypt-scanner-Eth") && !IsScannerName("scanner-eth")
  {
    assert "ocrypt-scanner-Eth"[15] == 'E';
    assert "scanner-eth"[0] != PREFIX[0];
  }

  function WishesOf(networks: map<string, Endpoint>): map<string, Wish> {
    map n | n in networks :: Wish(networks[n].aliases, networks[n].links, networks[n].driverOpts)
  }

  /** The daemon built what the plan asks for. */
  predicate Honours(built: Settings, plan: Plan) {
    && built.image == built.configImage == plan.image
    && built.env == plan.env && built.probe == plan.probe && built.other == plan.other && built.host == plan.host
    && WishesOf(built.networks) == plan.networks
  }

  /** The same scanner with the new probe, on the very image object that was running. */
  predicate Succeeds(built: Settings, original: Settings) {
    && built.image == original.image
    && built.env == original.env && built.other == original.other && built.host == original.host
    && built.probe == ["CMD", "/app/service", "--check-ready"]
    && WishesOf(built.networks) == WishesOf(original.networks)
  }

  /** Honouring the plan means to succeed the original, pinned to its image object. */
  ghost predicate IsPlanFor(plan: Plan, original: Settings) {
    && plan.image == original.image && plan.env == original.env
    && forall built: Settings :: Honours(built, plan) <==> Succeeds(built, original) && built.configImage == original.image
  }

  /** The shell-based readiness probe, and no address that another container could not take over. */
  predicate IsRepairable(settings: Settings) {
    && settings.probe == ["CMD-SHELL", "/app/service --check-ready"]
    && forall n | n in settings.networks :: !settings.networks[n].staticAddress
  }

  /** The plan of the replacement, or the reason why the container is not one to repair. */
  function RepairPlan(c: Container): (r: Result<Plan, Error>)
    ensures r.Ok? <==> IsScannerName(c.name) && IsRepairable(c.settings)
    ensures r.Err? ==> r.error == UnsuitableContainer
    ensures r.Ok? ==> IsPlanFor(r.value, c.settings)
  {
    if !IsScannerName(c.name) then Err(UnsuitableContainer)
    else if c.settings.probe != SHELL_PROBE then Err(UnsuitableContainer)
    else if exists n | n in c.settings.networks :: c.settings.networks[n].staticAddress then Err(UnsuitableContainer)
    else Ok(Plan(c.settings.image, c.settings.env, EXEC_PROBE, c.settings.other, c.settings.host,
                 WishesOf(c.settings.networks)))
  }

  lemma {:induction false} PlansCanBeHonoured(plan: Plan)
    ensures exists built: Settings :: Honours(built, plan)
  {
    var networks := map n | n in plan.networks ::
      Endpoint(false, plan.networks[n].aliases, plan.networks[n].links, plan.networks[n].driverOpts, "");
    assert WishesOf(networks) == plan.networks;
    assert Honours(Settings(plan.image, plan.image, plan.env, plan.probe, plan.other, plan.host, networks), plan);
  }

  //// The daemon

  ghost predicate UniqueNames(s: Containers) {
    forall i, j | i in s && j in s && s[i].name == s[j].name :: i == j
  }

  predicate HasName(s: Containers, i: Id, name: string) {
    i in s && s[i].name == name
  }

  ghost predicate SoleHolder(s: Containers, id: Id, name: string) {
    && HasName(s, id, name)
    && forall i: Id {:trigger HasName(s, i, name)} | HasName(s, i, name) :: i == id
  }

  predicate NameFree(s: Containers, name: string) {
    forall i: Id {:trigger HasName(s, i, name)} | i in s :: !HasName(s, i, name)
  }

  /** The container keeps its name and settings and is not started. */
  predicate IsKept(s: Containers, t: Containers, i: Id) {
    i in s ==>
      && i in t
      && t[i].name == s[i].name
      && t[i].settings == s[i].settings
      && (t[i].running ==> s[i].running)
  }

  /** What may happen to containers on their own: running ones exit, health changes. */
  predicate Drifts(s: Containers, t: Containers) {
    t.Keys == s.Keys && forall i: Id {:trigger IsKept(s, t, i)} | i in s :: IsKept(s, t, i)
  }

  //// Requests that change something

  datatype Request =
    | Switch(id: Id, on: bool)
    | Label(id: Id, name: string)
    | Make(id: Id, name: string, settings: Settings)
    | Remove(id: Id)

  /** A daemon serves a request unless its container is missing or its name is taken. */
  predicate IsPossible(s: Containers, q: Request) {
    match q
    case Switch(id, _) => id in s
    case Label(id, name) => id in s && NameFree(s, name)
    case Make(id, name, _) => id !in s && NameFree(s, name)
    case Remove(id) => id in s
  }

  function Effect(s: Containers, q: Request): Containers
    requires IsPossible(s, q)
  {
    match q
    case Switch(id, on) => s[id := s[id].(running := on)]
    case Label(id, name) => s[id := s[id].(name := name)]
    case Make(id, name, settings) => s[id := Container(name, settings, false, false)]
    case Remove(id) => s - {id}
  }

  predicate TookEffect(s: Containers, t: Containers, q: Request) {
    IsPossible(s, q) && t == Effect(s, q)
  }

  /** The request took effect or it did not. */
  predicate Follows(s: Containers, t: Containers, q: Request) {
    t == s || TookEffect(s, t, q)
  }

  datatype Reference = ById(id: Id) | ByName(name: string)

  datatype Seen = Seen(id: Id, container: Container)

  /** Whether `found` is the truthful answer to looking up `what`. */
  ghost predicate Truthful(s: Containers, what: Reference, found: Option<Seen>) {
    match found
    case Some(c) => c.id in s && s[c.id] == c.container && Names(what, c.id, c.container)
    case None => forall i | i in s :: !Names(what, i, s[i])
  }

  ghost predicate Names(what: Reference, i: Id, c: Container) {
    match what
    case ById(id) => i == id
    case ByName(name) => c.name == name
  }

  /** A request that was sent, whatever became of it. */
  datatype Sent =
    | Switched(id: Id, on: bool)
    | Labelled(id: Id, name: string)
    | Asked(name: string, plan: Plan)
    | Removed(id: Id)

  /** How one request of a nondeterministic daemon ends. */
  datatype Fate = Served | Dropped | ResponseLost

  class Daemon {
    var containers: Containers

    /** The container under repair and the ids that existed before the repair, for `alwaysSafe`. */
    ghost var watched: Id
    ghost var base: set<Id>
    /** Whether every state since the watch began satisfied `Safe`. */
    ghost var alwaysSafe: bool
    /** The number of requests that failed although the daemon could have served them. */
    ghost var faults: nat
    /** Whether the watched container had just exited on its own at the latest look. */
    ghost var justExited: bool
    /** Every request to change something, in the order of sending. */
    ghost var sent: seq<Sent>
    /** How many of them were not acknowledged. */
    ghost var unanswered: nat
    /** Whether the daemon builds containers with the image and environment it was asked for. */
    const honoursPlan: bool

    constructor (s: Containers, honoursPlan: bool)
      ensures containers == s && this.honoursPlan == honoursPlan
      ensures faults == 0 && !justExited && sent == [] && unanswered == 0
    {
      containers, this.honoursPlan := s, honoursPlan;
      faults, justExited, sent, unanswered := 0, false, [], 0;
    }

    ghost method Send(q: Sent)
      modifies this`sent
      ensures sent == old(sent) + [q]
    {
      sent := sent + [q];
    }

    ghost method Record(fate: Fate)
      modifies this`alwaysSafe, this`faults
      ensures alwaysSafe == (old(alwaysSafe) && Safe(containers, watched, base))
      ensures faults == if fate == Served then old(faults) else old(faults) + 1
    {
      alwaysSafe := alwaysSafe && Safe(containers, watched, base);
      faults := if fate == Served then faults else faults + 1;
    }

    /** GET /containers/{what}/json, with 404 read as absence. */
    method Inspect(what: Reference) returns (r: Result<Option<Seen>, Error>)
      modifies this`containers, this`alwaysSafe, this`faults, this`justExited
      ensures Drifts(old(containers), containers)
      ensures justExited <==>
              watched in containers && old(containers)[watched].running && !containers[watched].running
      ensures alwaysSafe == (old(alwaysSafe) && Safe(containers, watched, base))
      ensures faults == if r.Ok? then old(faults) else old(faults) + 1
      ensures r.Err? ==> r.error == RequestFailed
      ensures r.Ok? ==> Truthful(containers, what, r.value)
    {
      assert Drifts(containers, containers);
      var now: Containers :| Drifts(containers, now);
      assert Drifts(containers, now);
      justExited := watched in now && containers[watched].running && !now[watched].running;
      containers := now;
      var fate: Fate :| fate == Served || fate == Dropped;
      Record(fate);
      if fate != Served {
        return Err(RequestFailed);
      }
      match what
      case ById(id) =>
        r := Ok(if id in containers then Some(Seen(id, containers[id])) else None);
      case ByName(name) =>
        if i: Id :| i in containers && containers[i].name == name {
          r := Ok(Some(Seen(i, containers[i])));
        } else {
          r := Ok(None);
        }
    }

    /** POST /containers/{id}/stop or /start. */
    method SetRunning(id: Id, run: bool) returns (ok: bool)
      modifies this`containers, this`alwaysSafe, this`faults, this`sent, this`unanswered
      ensures unanswered == old(unanswered) + if ok then 0 else 1
      ensures sent == old(sent) + [Switched(id, run)]
      ensures alwaysSafe == (old(alwaysSafe) && Safe(containers, watched, base))
      ensures Follows(old(containers), containers, Switch(id, run))
      ensures ok ==> TookEffect(old(containers), containers, Switch(id, run))
      ensures faults == old(faults) ==> ok == (id in old(containers))
      ensures old(faults) <= faults
    {
      Send(Switched(id, run));
      var fate: Fate :| true;
      if id in containers && fate != Dropped {
        containers := Effect(containers, Switch(id, run));
      }
      ok := id in containers && fate == Served;
      unanswered := unanswered + if ok then 0 else 1;
      Record(fate);
    }

    /** POST /containers/{id}/rename: refused when the name is taken. */
    method Rename(id: Id, name: string) returns (ok: bool)
      modifies this`containers, this`alwaysSafe, this`faults, this`sent, this`unanswered
      ensures unanswered == old(unanswered) + if ok then 0 else 1
      ensures sent == old(sent) + [Labelled(id, name)]
      ensures alwaysSafe == (old(alwaysSafe) && Safe(containers, watched, base))
      ensures Follows(old(containers), containers, Label(id, name))
      ensures ok ==> TookEffect(old(containers), containers, Label(id, name))
      ensures faults == old(faults) ==> ok == (id in old(containers) && NameFree(old(containers), name))
      ensures old(faults) <= faults
    {
      Send(Labelled(id, name));
      var fate: Fate :| true;
      var possible := id in containers && NameFree(containers, name);
      if possible && fate != Dropped {
        containers := Effect(containers, Label(id, name));
      }
      ok := possible && fate == Served;
      unanswered := unanswered + if ok then 0 else 1;
      Record(fate);
    }

    /** POST /containers/create: a stopped container under an unused id. `made` is the id even when the reply is lost. */
    method Create(name: string, plan: Plan) returns (r: Option<Id>, ghost made: Option<Id>, ghost built: Settings)
      modifies this`containers, this`alwaysSafe, this`faults, this`sent, this`unanswered
      ensures unanswered == old(unanswered) + if r.Some? then 0 else 1
      ensures sent == old(sent) + [Asked(name, plan)]
      ensures alwaysSafe == (old(alwaysSafe) && Safe(containers, watched, base))
      ensures made.None? ==> containers == old(containers)
      ensures made.Some? ==>
                && IsPossible(old(containers), Make(made.value, name, built))
                && containers == Effect(old(containers), Make(made.value, name, built))
                && (honoursPlan ==> Honours(built, plan))
      ensures r.Some? ==> made == r
      ensures faults == old(faults) ==> made == r && (r.Some? <==> NameFree(old(containers), name))
      ensures old(faults) <= faults
    {
      Send(Asked(name, plan));
      var fate: Fate :| true;
      PlansCanBeHonoured(plan);
      var settings: Settings :| honoursPlan ==> Honours(settings, plan);
      r, made, built := None, None, settings;
      if NameFree(containers, name) && fate != Dropped {
        FreshIdExists(containers.Keys);
        var id: Id :| id !in containers;
        containers := Effect(containers, Make(id, name, settings));
        made := Some(id);
        r := if fate == Served then Some(id) else None;
      }
      unanswered := unanswered + if r.Some? then 0 else 1;
      Record(fate);
    }

    /** DELETE /containers/{id}?force=true. */
    method Delete(id: Id) returns (ok: bool)
      modifies this`containers, this`alwaysSafe, this`faults, this`sent, this`unanswered
      ensures unanswered == old(unanswered) + if ok then 0 else 1
      ensures sent == old(sent) + [Removed(id)]
      ensures alwaysSafe == (old(alwaysSafe) && Safe(containers, watched, base))
      ensures Follows(old(containers), containers, Remove(id))
      ensures ok ==> TookEffect(old(containers), containers, Remove(id))
      ensures faults == old(faults) ==> ok == (id in old(containers))
      ensures old(faults) <= faults
    {
      Send(Removed(id));
      var fate: Fate :| true;
      var present := id in containers;
      if present && fate != Dropped {
        containers := Effect(containers, Remove(id));
      }
      ok := present && fate == Served;
      unanswered := unanswered + if ok then 0 else 1;
      Record(fate);
    }
  }

  lemma {:induction false} FreshIdExists(ids: set<Id>)
    ensures exists id: Id :: id !in ids
  {
    var m := AboveAll(ids);
    assert m !in ids;
  }

  lemma {:induction false} AboveAll(ids: set<Id>) returns (m: Id)
    ensures forall i | i in ids :: i < m
  {
    if ids == {} {
      m := 0;
    } else {
      var x :| x in ids;
      var rest := AboveAll(ids - {x});
      m := if rest <= x then x + 1 else rest;
      assert forall i | i in ids :: i == x || i in ids - {x};
    }
  }

  //// What the protocol keeps

  predicate IsNew(before: set<Id>, s: Containers, i: Id) {
    i in s && i !in before
  }

  /** The original still exists and runs only while nothing created since `before` runs. */
  ghost predicate Safe(s: Containers, original: Id, before: set<Id>) {
    && original in s
    && forall i: Id {:trigger IsNew(before, s, i)} | IsNew(before, s, i) && s[i].running :: !s[original].running
  }

  ghost predicate Watches(d: Daemon, original: Id, before: Containers)
    reads d
  {
    d.watched == original && d.base == before.Keys
  }

  /** Containers other than the original keep their name and settings and are never deleted or started. */
  ghost predicate OthersUntouched(before: Containers, s: Containers, original: Id) {
    forall i: Id {:trigger IsKept(before, s, i)} | i in before && i != original :: IsKept(before, s, i)
  }

  /** Nothing exists in `s` that did not exist before, except possibly `made`. */
  ghost predicate Adds(before: Containers, s: Containers, made: Option<Id>) {
    forall i: Id {:trigger IsNew(before.Keys, s, i)} | IsNew(before.Keys, s, i) :: made == Some(i)
  }

  /** Nothing that was created since runs. */
  ghost predicate NewOnesRest(before: Containers, s: Containers) {
    forall i: Id {:trigger IsNew(before.Keys, s, i)} | IsNew(before.Keys, s, i) :: !s[i].running
  }

  /** The states in which the forward steps can stop; `made` is the replacement, if one exists. */
  ghost predicate Interrupted(s: Containers, before: Containers, original: Id,
                              container: string, backup: string, made: Option<Id>)
  {
    && SoleHolder(before, original, container)
    && (made.Some? ==> made.value !in before)
    && original in s
    && (made.Some? ==> made.value in s)
    && Adds(before, s, made)
    && OthersUntouched(before, s, original)
    && s[original].settings == before[original].settings
    && (s[original].name == container || s[original].name == backup)
    && (made.Some? ==> s[original].name == backup && !s[original].running && s[made.value].name == container)
  }

  /** The image and the environment, which the protocol compares. */
  predicate SameBuild(a: Settings, b: Settings) {
    a.image == b.image && a.env == b.env
  }

  /** The states in which the original may be started: nothing created since `before` runs. */
  ghost predicate Startable(s: Containers, before: Containers, original: Id)
  {
    && original in before && original in s
    && OthersUntouched(before, s, original)
    && s[original].settings == before[original].settings
    && NewOnesRest(before, s)
  }

  datatype Restored = Restored(nameRestored: bool, errors: nat)

  /** The original is stopped and at most `replacement` was created since `before`. */
  ghost predicate Pending(s: Containers, before: Containers, original: Id, replacement: Id)
  {
    && original in before && original in s && replacement !in before
    && Adds(before, s, Some(replacement))
    && OthersUntouched(before, s, original)
    && s[original].settings == before[original].settings
    && !s[original].running
  }

  //// What drifting and single requests keep

  lemma {:induction false} OthersStayUntouched(before: Containers, s: Containers, t: Containers, original: Id)
    requires OthersUntouched(before, s, original)
    requires Drifts(s, t) || exists q :: Spares(before, original, q) && Follows(s, t, q)
    ensures OthersUntouched(before, t, original)
  {
    if !Drifts(s, t) {
      var q :| Spares(before, original, q) && Follows(s, t, q);
      forall i | i in before && i != original
        ensures IsKept(before, t, i)
      {
        assert IsKept(before, s, i);
      }
    } else {
      forall i | i in before && i != original
        ensures IsKept(before, t, i)
      {
        assert IsKept(before, s, i) && IsKept(s, t, i);
      }
    }
  }

  /** A request about the original, or about a container that was not there before. */
  predicate Spares(before: Containers, original: Id, q: Request) {
    q.id == original || q.id !in before
  }

  /** Drifting adds nothing and starts nothing. */
  lemma {:induction false} DriftKeepsNew(before: set<Id>, s: Containers, t: Containers, i: Id)
    requires Drifts(s, t) && IsNew(before, t, i)
    ensures IsNew(before, s, i) && IsKept(s, t, i)
  {
  }

  lemma {:induction false} DriftKeepsAdds(before: Containers, s: Containers, t: Containers, made: Option<Id>)
    requires Drifts(s, t) && Adds(before, s, made)
    ensures Adds(before, t, made)
  {
    forall i: Id | IsNew(before.Keys, t, i)
      ensures made == Some(i)
    {
      DriftKeepsNew(before.Keys, s, t, i);
    }
  }

  lemma {:induction false} DriftKeepsStartable(s: Containers, t: Containers, before: Containers, original: Id)
    requires Drifts(s, t) && Startable(s, before, original)
    ensures Startable(t, before, original) && IsKept(s, t, original)
    ensures Adds(before, s, None) ==> Adds(before, t, None)
  {
    OthersStayUntouched(before, s, t, original);
    assert IsKept(s, t, original);
    forall i: Id | IsNew(before.Keys, t, i)
      ensures !t[i].running
    {
      DriftKeepsNew(before.Keys, s, t, i);
    }
    if Adds(before, s, None) {
      DriftKeepsAdds(before, s, t, None);
    }
  }

  lemma {:induction false} DriftKeepsPending(s: Containers, t: Containers, before: Containers, original: Id, replacement: Id)
    requires Drifts(s, t) && Pending(s, before, original, replacement)
    ensures Pending(t, before, original, replacement) && IsKept(s, t, original) && IsKept(s, t, replacement)
  {
    OthersStayUntouched(before, s, t, original);
    assert IsKept(s, t, original);
    assert replacement in s ==> IsKept(s, t, replacement);
    DriftKeepsAdds(before, s, t, Some(replacement));
  }

  lemma {:induction false} DriftKeepsInterrupted(s: Containers, t: Containers, before: Containers, original: Id,
                                                 container: string, backup: string, made: Option<Id>)
    requires Drifts(s, t) && Interrupted(s, before, original, container, backup, made)
    ensures Interrupted(t, before, original, container, backup, made) && IsKept(s, t, original)
    ensures made.Some? ==> IsKept(s, t, made.value)
  {
    OthersStayUntouched(before, s, t, original);
    assert IsKept(s, t, original);
    assert made.Some? ==> IsKept(s, t, made.value);
    DriftKeepsAdds(before, s, t, made);
  }

  /** A request adds nothing, unless it is a create. */
  lemma {:induction false} RequestKeepsAdds(before: Containers, s: Containers, t: Containers, q: Request, made: Option<Id>)
    requires Follows(s, t, q) && Adds(before, s, made) && (q.Make? ==> made == Some(q.id))
    ensures Adds(before, t, made)
  {
    forall i: Id | IsNew(before.Keys, t, i)
      ensures made == Some(i)
    {
      assert i != q.id ==> IsNew(before.Keys, s, i);
      assert i == q.id && !q.Make? ==> IsNew(before.Keys, s, i);
    }
  }

  /** Naming or starting the original. */
  lemma {:induction false} RequestKeepsStartable(s: Containers, t: Containers, before: Containers, original: Id, q: Request)
    requires Follows(s, t, q) && (q.Label? || q.Switch?) && q.id == original && Startable(s, before, original)
    ensures Startable(t, before, original)
    ensures Adds(before, s, None) ==> Adds(before, t, None)
  {
    assert Spares(before, original, q);
    OthersStayUntouched(before, s, t, original);
    forall i: Id | IsNew(before.Keys, t, i)
      ensures !t[i].running
    {
      assert IsNew(before.Keys, s, i);
    }
    if Adds(before, s, None) {
      RequestKeepsAdds(before, s, t, q, None);
    }
  }

  /** Any request about the replacement. */
  lemma {:induction false} RequestKeepsPending(s: Containers, t: Containers, before: Containers, original: Id,
                                               replacement: Id, q: Request)
    requires Follows(s, t, q) && q.id == replacement && Pending(s, before, original, replacement)
    ensures Pending(t, before, original, replacement)
  {
    assert Spares(before, original, q);
    OthersStayUntouched(before, s, t, original);
    RequestKeepsAdds(before, s, t, q, Some(replacement));
  }

  /** Stopping and renaming the original while there is no replacement, or switching the replacement. */
  lemma {:induction false} RequestKeepsInterrupted(s: Containers, t: Containers, before: Containers, original: Id,
                                                   container: string, backup: string, made: Option<Id>, q: Request)
    requires Follows(s, t, q) && Interrupted(s, before, original, container, backup, made)
    requires if made.None? then q == Switch(original, false) || q == Label(original, backup)
             else q == Switch(made.value, true)
    ensures Interrupted(t, before, original, container, backup, made)
  {
    assert Spares(before, original, q);
    OthersStayUntouched(before, s, t, original);
    RequestKeepsAdds(before, s, t, q, made);
  }

  /** Creating the replacement after the original stepped aside. */
  lemma {:induction false} MakeKeepsInterrupted(s: Containers, t: Containers, before: Containers, original: Id,
                                                container: string, backup: string, q: Request)
    requires IsPossible(s, q) && t == Effect(s, q) && q.Make? && q.name == container
    requires Interrupted(s, before, original, container, backup, None)
    requires s[original].name == backup && !s[original].running
    ensures Interrupted(t, before, original, container, backup, Some(q.id))
  {
    assert q.id in before && q.id != original ==> IsKept(before, s, q.id);
    assert Spares(before, original, q);
    OthersStayUntouched(before, s, t, original);
    RequestKeepsAdds(before, s, t, q, Some(q.id));
  }

  //// Recovery

  /** Stop the replacement, then delete it whether or not the stop was acknowledged. */
  method StopAndDelete(d: Daemon, replacement: Id, original: Id, ghost before: Containers) returns (errors: nat)
    requires Watches(d, original, before) && Pending(d.containers, before, original, replacement)
    modifies d`containers, d`alwaysSafe, d`faults, d`sent, d`unanswered
    ensures d.alwaysSafe == old(d.alwaysSafe)
    ensures old(d.faults) <= d.faults
    ensures d.sent == old(d.sent) + [Switched(replacement, false), Removed(replacement)]
    ensures Pending(d.containers, before, original, replacement)
    ensures d.unanswered == old(d.unanswered) + errors
    ensures errors == 0 ==> replacement !in d.containers
    ensures d.containers[original].name == old(d.containers[original].name)
    ensures d.faults == old(d.faults) && replacement in old(d.containers) ==> errors == 0
    ensures d.faults == old(d.faults) ==> replacement !in d.containers
  {
    ghost var s0 := d.containers;
    var stopped := d.SetRunning(replacement, false);
    ghost var s1 := d.containers;
    RequestKeepsPending(s0, s1, before, original, replacement, Switch(replacement, false));
    var deleted := d.Delete(replacement);
    RequestKeepsPending(s1, d.containers, before, original, replacement, Remove(replacement));
    errors := (if stopped then 0 else 1) + if deleted then 0 else 1;
  }

  /** Check that the replacement is gone or stopped; if it survives, take the scanner's name away from it. */
  method Unname(d: Daemon, replacement: Id, original: Id, container: string, backup: string, ghost before: Containers)
    returns (r: Result<nat, Error>)
    requires Watches(d, original, before) && Pending(d.containers, before, original, replacement)
    modifies d`containers, d`alwaysSafe, d`faults, d`justExited, d`sent, d`unanswered
    ensures d.alwaysSafe == old(d.alwaysSafe)
    ensures old(d.faults) <= d.faults
    ensures Pending(d.containers, before, original, replacement)
    ensures r.Ok? && replacement in d.containers ==> !d.containers[replacement].running
    ensures d.faults == old(d.faults) ==>
              (r.Err? <==> replacement in d.containers && d.containers[replacement].running)
    ensures d.faults == old(d.faults) && replacement !in old(d.containers) ==>
              r == Ok(0) && replacement !in d.containers
    ensures replacement !in old(d.containers) ==> replacement !in d.containers
    ensures r.Ok? ==> d.unanswered == old(d.unanswered) + r.value
    ensures r == Ok(0) ==> !HasName(d.containers, replacement, container)
    ensures d.containers[original].name == old(d.containers[original].name)
    ensures d.sent == old(d.sent) + if r.Ok? && HasName(old(d.containers), replacement, container)
                                    then [Labelled(replacement, backup + "-failed")] else []
  {
    ghost var s0 := d.containers;
    var remaining := d.Inspect(ById(replacement));
    ghost var s1 := d.containers;
    DriftKeepsPending(s0, s1, before, original, replacement);
    if remaining.Err? {
      return Err(remaining.error);
    }
    r := Ok(0);
    if remaining.value.Some? {
      if remaining.value.value.container.running {
        return Err(ReplacementStillRunning);
      }
      if remaining.value.value.container.name == container {
        var ok := d.Rename(replacement, backup + "-failed");
        assert ok ==> !HasName(s1, replacement, backup + "-failed");
        RequestKeepsPending(s1, d.containers, before, original, replacement, Label(replacement, backup + "-failed"));
        r := Ok(if ok then 0 else 1);
      }
    }
  }

  /** Nobody else has taken the original's name. */
  lemma {:induction false} OwnNameIsFree(before: Containers, s: Containers, original: Id, container: string)
    requires SoleHolder(before, original, container) && OthersUntouched(before, s, original) && Adds(before, s, None)
    ensures forall i: Id {:trigger HasName(s, i, container)} | HasName(s, i, container) :: i == original
  {
    forall i: Id | HasName(s, i, container)
      ensures i == original
    {
      assert !IsNew(before.Keys, s, i);
      if i != original {
        assert IsKept(before, s, i);
        assert HasName(before, i, container);
      }
    }
  }

  /** Give the original its name back. */
  method RegainName(d: Daemon, original: Id, container: string, ghost before: Containers)
    returns (r: Result<nat, Error>)
    requires Watches(d, original, before) && Startable(d.containers, before, original)
    requires SoleHolder(before, original, container)
    modifies d`containers, d`alwaysSafe, d`faults, d`justExited, d`sent, d`unanswered
    ensures d.alwaysSafe == old(d.alwaysSafe)
    ensures old(d.faults) <= d.faults
    ensures Startable(d.containers, before, original)
    ensures old(Adds(before, d.containers, None)) ==> Adds(before, d.containers, None)
    ensures d.faults == old(d.faults) && old(Adds(before, d.containers, None)) ==>
              r == Ok(0) && d.containers[original].name == container
    ensures r.Ok? ==> d.unanswered == old(d.unanswered) + r.value
    ensures r == Ok(0) ==> d.containers[original].name == container
    ensures d.faults == old(d.faults) ==> r.Ok?
    ensures d.sent == old(d.sent) + if r.Ok? && old(d.containers[original].name) != container
                                    then [Labelled(original, container)] else []
  {
    ghost var s0 := d.containers;
    var seen := d.Inspect(ById(original));
    ghost var s1 := d.containers;
    DriftKeepsStartable(s0, s1, before, original);
    if seen.Err? {
      return Err(seen.error);
    }
    if seen.value.None? {
      return Err(OriginalMissing);
    }
    r := Ok(0);
    if seen.value.value.container.name != container {
      if Adds(before, s1, None) {
        OwnNameIsFree(before, s1, original, container);
      }
      var ok := d.Rename(original, container);
      RequestKeepsStartable(s1, d.containers, before, original, Label(original, container));
      r := Ok(if ok then 0 else 1);
    }
  }

  /** Start the original unless it runs; an error here does not count until the final look. */
  method StartOriginal(d: Daemon, original: Id, ghost before: Containers)
    returns (r: Result<nat, Error>)
    requires Watches(d, original, before) && Startable(d.containers, before, original)
    modifies d`containers, d`alwaysSafe, d`faults, d`justExited, d`sent, d`unanswered
    ensures d.alwaysSafe == old(d.alwaysSafe)
    ensures old(d.faults) <= d.faults
    ensures Startable(d.containers, before, original)
    ensures old(Adds(before, d.containers, None)) ==> Adds(before, d.containers, None)
    ensures d.containers[original].name == old(d.containers[original].name)
    ensures d.faults == old(d.faults) ==> r == Ok(0) && d.containers[original].running
    ensures r.Ok? ==> d.unanswered == old(d.unanswered) + r.value
    ensures d.sent == old(d.sent) || d.sent == old(d.sent) + [Switched(original, true)]
    ensures r.Ok? ==> (d.sent == old(d.sent) <==> old(d.containers[original].running) && !d.justExited)
  {
    ghost var s0 := d.containers;
    var seen := d.Inspect(ById(original));
    ghost var s1 := d.containers;
    DriftKeepsStartable(s0, s1, before, original);
    if seen.Err? {
      return Err(seen.error);
    }
    r := Ok(0);
    if seen.value.Some? && !seen.value.value.container.running {
      var ok := d.SetRunning(original, true);
      RequestKeepsStartable(s1, d.containers, before, original, Switch(original, true));
      r := Ok(if ok then 0 else 1);
    }
  }

  /** Whether the daemon built, under a lost reply, a container that the identity check will not recognise. */
  ghost predicate Unrecognisable(s: Containers, before: Containers, original: Id,
                                 replacement: Option<Id>, made: Option<Id>)
    requires original in before && (made.Some? ==> made.value in s)
  {
    replacement.None? && made.Some? && !SameBuild(s[made.value].settings, before[original].settings)
  }

  /** The scanner's name belongs to the replacement if there is one, and otherwise at most to the original. */
  lemma {:induction false} NameIsHeldByNewest(before: Containers, s: Containers, original: Id,
                                              container: string, backup: string, made: Option<Id>)
    requires Interrupted(s, before, original, container, backup, made) && container != backup
    ensures forall i: Id {:trigger HasName(s, i, container)} | HasName(s, i, container) ::
              if made.Some? then made == Some(i) else i == original
  {
    forall i: Id | HasName(s, i, container)
      ensures if made.Some? then made == Some(i) else i == original
    {
      if IsNew(before.Keys, s, i) {
        assert made == Some(i);
      } else if i != original {
        assert IsKept(before, s, i);
        assert HasName(before, i, container);
      }
    }
  }

  /** Find the replacement by its id, or by the scanner's name when the id is not known. */
  method FindReplacement(d: Daemon, original: Seen, container: string, backup: string, replacement: Option<Id>,
                         ghost before: Containers, ghost made: Option<Id>)
    returns (r: Result<Option<Id>, Error>)
    requires Watches(d, original.id, before)
    requires Interrupted(d.containers, before, original.id, container, backup, made)
    requires original.container.settings == before[original.id].settings
    requires container != backup
    requires replacement.Some? ==> replacement == made
    modifies d`containers, d`alwaysSafe, d`faults, d`justExited
    ensures d.alwaysSafe == old(d.alwaysSafe)
    ensures old(d.faults) <= d.faults
    ensures Interrupted(d.containers, before, original.id, container, backup, made)
    ensures r.Ok? ==> r.value == made && !old(Unrecognisable(d.containers, before, original.id, replacement, made))
    ensures d.containers[original.id].name == old(d.containers[original.id].name)
    ensures d.faults == old(d.faults) ==>
              (r.Err? <==> old(Unrecognisable(d.containers, before, original.id, replacement, made)))
  {
    ghost var s0 := d.containers;
    var current := d.Inspect(if replacement.Some? then ById(replacement.value) else ByName(container));
    ghost var s1 := d.containers;
    DriftKeepsInterrupted(s0, s1, before, original.id, container, backup, made);
    NameIsHeldByNewest(before, s1, original.id, container, backup, made);
    if current.Err? {
      return Err(current.error);
    }
    assert made.Some? ==> HasName(s1, made.value, container);
    if current.value.Some? && current.value.value.id != original.id {
      var seen := current.value.value;
      assert replacement.None? ==> HasName(s1, seen.id, container);
      if replacement != Some(seen.id) && !SameBuild(seen.container.settings, original.container.settings) {
        return Err(UnexpectedIdentity);
      }
      return Ok(Some(seen.id));
    }
    r := Ok(None);
  }

  /** Look at the original once more: it must run, and its name is reported as it is. */
  method LookAgain(d: Daemon, original: Id, container: string, errors: nat, ghost before: Containers)
    returns (r: Result<Restored, Error>)
    requires Watches(d, original, before) && Startable(d.containers, before, original)
    modifies d`containers, d`alwaysSafe, d`faults, d`justExited
    ensures d.alwaysSafe == old(d.alwaysSafe) && old(d.faults) <= d.faults
    ensures Startable(d.containers, before, original)
    ensures old(Adds(before, d.containers, None)) ==> Adds(before, d.containers, None)
    ensures d.containers[original].name == old(d.containers[original].name)
    ensures r.Ok? ==> r.value.errors == errors && d.containers[original].running
    ensures r.Ok? ==> (r.value.nameRestored <==> d.containers[original].name == container)
    ensures d.faults == old(d.faults) && old(d.containers[original].running) ==>
              if d.justExited then r == Err(OriginalNotRestored) else r.Ok?
  {
    ghost var s0 := d.containers;
    var final := d.Inspect(ById(original));
    DriftKeepsStartable(s0, d.containers, before, original);
    if final.Err? {
      return Err(final.error);
    }
    if final.value.None? || !final.value.value.container.running {
      return Err(OriginalNotRestored);
    }
    r := Ok(Restored(final.value.value.container.name == container, errors));
  }

  /** Name the original, start it, and look once more. */
  method RestartOriginal(d: Daemon, original: Id, container: string, errors: nat, ghost before: Containers)
    returns (r: Result<Restored, Error>)
    requires Watches(d, original, before) && Startable(d.containers, before, original)
    requires SoleHolder(before, original, container)
    modifies d`containers, d`alwaysSafe, d`faults, d`justExited, d`sent, d`unanswered
    ensures d.alwaysSafe == old(d.alwaysSafe)
    ensures old(d.faults) <= d.faults
    ensures Startable(d.containers, before, original)
    ensures r.Ok? ==> d.containers[original].running
    ensures r.Ok? ==> (r.value.nameRestored <==> d.containers[original].name == container)
    ensures d.faults == old(d.faults) && old(Adds(before, d.containers, None)) ==>
              && Adds(before, d.containers, None)
              && d.containers[original].name == container
              && r == if d.justExited then Err(OriginalNotRestored) else Ok(Restored(true, errors))
    ensures r.Ok? ==> r.value.errors == errors + (d.unanswered - old(d.unanswered))
    ensures r.Ok? ==> errors <= r.value.errors
    ensures r.Ok? && r.value.errors == errors ==>
              r.value.nameRestored && (old(Adds(before, d.containers, None)) ==> Adds(before, d.containers, None))
    ensures d.faults == old(d.faults) ==>
              var named := if old(d.containers[original].name) == container then [] else [Labelled(original, container)];
              d.sent == old(d.sent) + named || d.sent == old(d.sent) + named + [Switched(original, true)]
  {
    var renaming :- RegainName(d, original, container, before);
    var starting :- StartOriginal(d, original, before);
    r := LookAgain(d, original, container, errors + renaming + starting, before);
  }

  method RestoreOriginal(d: Daemon, original: Seen, container: string, backup: string, replacement: Option<Id>,
                         ghost before: Containers, ghost made: Option<Id>)
    returns (r: Result<Restored, Error>)
    requires Watches(d, original.id, before)
    requires Interrupted(d.containers, before, original.id, container, backup, made)
    requires original.container.settings == before[original.id].settings
    requires container != backup
    requires replacement.Some? ==> replacement == made
    modifies d`containers, d`alwaysSafe, d`faults, d`justExited, d`sent, d`unanswered
    ensures d.alwaysSafe == old(d.alwaysSafe) && old(d.faults) <= d.faults
    ensures OthersUntouched(before, d.containers, original.id)
    ensures original.id in d.containers && d.containers[original.id].settings == before[original.id].settings
    ensures r.Ok? ==> d.containers[original.id].running
    ensures r.Ok? ==> (r.value.nameRestored <==> d.containers[original.id].name == container)
    ensures old(Unrecognisable(d.containers, before, original.id, replacement, made)) ==>
              r.Err? && !d.containers[original.id].running
    ensures d.faults == old(d.faults) && !old(Unrecognisable(d.containers, before, original.id, replacement, made)) ==>
              && Adds(before, d.containers, None)
              && d.containers[original.id].name == container
              && r == if d.justExited then Err(OriginalNotRestored) else Ok(Restored(true, 0))
    // The reported count is that of the recovery requests without an answer; with none, everything is back.
    ensures r.Ok? ==> r.value.errors == d.unanswered - old(d.unanswered)
    ensures r.Ok? && r.value.errors == 0 ==> r.value.nameRestored && Adds(before, d.containers, None)
    // What a recovery without faults sends: it removes the replacement, names the original and starts it.
    ensures d.faults == old(d.faults) && !old(Unrecognisable(d.containers, before, original.id, replacement, made)) ==>
              var removed := if made.None? then [] else [Switched(made.value, false), Removed(made.value)];
              var named := if old(d.containers[original.id].name) == container then []
                           else [Labelled(original.id, container)];
              || d.sent == old(d.sent) + removed + named
              || d.sent == old(d.sent) + removed + named + [Switched(original.id, true)]
  {
    var errors := 0;
    var found :- FindReplacement(d, original, container, backup, replacement, before, made);
    if found.Some? {
      errors := StopAndDelete(d, found.value, original.id, before);
      var renaming :- Unname(d, found.value, original.id, container, backup, before);
      errors := errors + renaming;
    }
    r := RestartOriginal(d, original.id, container, errors, before);
  }

  //// The forward steps

  /** Stop the original and give it the backup name. */
  method StepAside(d: Daemon, original: Id, container: string, backup: string, ghost before: Containers)
    returns (ok: bool)
    requires Watches(d, original, before) && before == d.containers
    requires SoleHolder(before, original, container)
    requires container != backup
    modifies d`containers, d`alwaysSafe, d`faults, d`sent, d`unanswered
    ensures d.alwaysSafe == old(d.alwaysSafe)
    ensures Interrupted(d.containers, before, original, container, backup, None)
    ensures ok ==> d.containers[original].name == backup && !d.containers[original].running
    ensures old(d.faults) <= d.faults
    ensures d.faults == old(d.faults) && NameFree(before, backup) ==> ok
    ensures old(d.sent) + [Switched(original, false)] <= d.sent
    ensures ok ==> d.sent == old(d.sent) + [Switched(original, false), Labelled(original, backup)]
  {
    ok := d.SetRunning(original, false);
    ghost var s1 := d.containers;
    RequestKeepsInterrupted(before, s1, before, original, container, backup, None, Switch(original, false));
    if ok {
      if NameFree(before, backup) {
        SwitchKeepsNames(before, s1, original, false, backup);
      }
      ok := d.Rename(original, backup);
      RequestKeepsInterrupted(s1, d.containers, before, original, container, backup, None, Label(original, backup));
    }
  }

  lemma {:induction false} SwitchKeepsNames(s: Containers, t: Containers, id: Id, on: bool, name: string)
    requires Follows(s, t, Switch(id, on)) && NameFree(s, name)
    ensures NameFree(t, name)
  {
    forall i: Id | i in t
      ensures !HasName(t, i, name)
    {
      assert !HasName(s, i, name);
    }
  }

  /** Create the replacement and compare what was built with the original. */
  method Build(d: Daemon, original: Seen, container: string, backup: string, plan: Plan, ghost before: Containers)
    returns (r: Result<Id, Error>, newId: Option<Id>, ghost made: Option<Id>)
    requires Watches(d, original.id, before)
    requires Interrupted(d.containers, before, original.id, container, backup, None)
    requires d.containers[original.id].name == backup && !d.containers[original.id].running
    requires original.container.settings == before[original.id].settings
    requires IsPlanFor(plan, original.container.settings)
    modifies d`containers, d`alwaysSafe, d`faults, d`justExited, d`sent, d`unanswered
    ensures d.alwaysSafe == old(d.alwaysSafe)
    ensures Interrupted(d.containers, before, original.id, container, backup, made)
    ensures newId.Some? ==> newId == made
    ensures r.Ok? ==> newId == made == Some(r.value)
    ensures r.Ok? ==> SameBuild(d.containers[r.value].settings, before[original.id].settings)
    ensures old(d.faults) <= d.faults && d.sent == old(d.sent) + [Asked(container, plan)]
    ensures d.faults == old(d.faults) && container != backup ==>
              && made.Some? && newId == made
              && var built, wanted := d.containers[made.value].settings, before[original.id].settings;
              (r.Ok? <==> built.image == wanted.image && built.env == wanted.env)
    ensures d.honoursPlan && made.Some? ==> Succeeds(d.containers[made.value].settings, before[original.id].settings)
  {
    ghost var s0 := d.containers;
    ghost var built;
    if container != backup {
      NameIsHeldByNewest(before, s0, original.id, container, backup, None);
    }
    newId, made, built := d.Create(container, plan);
    ghost var s1 := d.containers;
    if made.Some? {
      MakeKeepsInterrupted(s0, s1, before, original.id, container, backup, Make(made.value, container, built));
    }
    if newId.None? {
      return Err(RequestFailed), newId, made;
    }
    var actual := d.Inspect(ById(newId.value));
    DriftKeepsInterrupted(s1, d.containers, before, original.id, container, backup, made);
    if actual.Err? || actual.value.None? {
      return Err(RequestFailed), newId, made;
    }
    if !SameBuild(actual.value.value.container.settings, original.container.settings) {
      return Err(SettingsChanged), newId, made;
    }
    r := Ok(newId.value);
  }

  /** What a series of looks at the replacement says: the last one decides. */
  function Judge(looks: seq<Container>): Result<(), Error> {
    if looks == [] then Err(NotReady)
    else
      var c := looks[|looks| - 1];
      if !c.running then Err(ReplacementExited) else if c.healthy then Ok(()) else Err(NotReady)
  }

  /** The looks before the last one, at which the replacement ran and was not yet healthy. */
  predicate AreUndecided(looks: seq<Container>) {
    forall k | 0 <= k < |looks| :: looks[k].running && !looks[k].healthy
  }

  /** Start the replacement and poll it until it is healthy, it exits, or the time is up. */
  method Launch(d: Daemon, replacement: Id, waitSeconds: int,
                original: Id, container: string, backup: string, ghost before: Containers)
    returns (r: Result<(), Error>, ghost looks: seq<Container>, ghost start: int, ghost finish: int)
    requires Watches(d, original, before)
    requires Interrupted(d.containers, before, original, container, backup, Some(replacement))
    modifies d`containers, d`alwaysSafe, d`faults, d`justExited, d`sent, d`unanswered
    ensures d.alwaysSafe == old(d.alwaysSafe) && old(d.faults) <= d.faults
    ensures Interrupted(d.containers, before, original, container, backup, Some(replacement))
    ensures d.containers[replacement].settings == old(d.containers[replacement].settings)
    ensures r.Ok? ==> d.containers[replacement].running && d.containers[replacement].healthy
    ensures d.sent == old(d.sent) + [Switched(replacement, true)]
    // Without faults the looks decide; it looks again while they do not, and gives up only after the time.
    ensures d.faults == old(d.faults) ==>
              && r == Judge(looks)
              && (looks != [] ==> AreUndecided(looks[..|looks| - 1]))
              && (r == Err(NotReady) <==> finish - start >= waitSeconds)
    ensures r.Ok? ==> Judge(looks).Ok?
  {
    ghost var s0 := d.containers;
    looks, start, finish := [], 0, waitSeconds;
    var ok := d.SetRunning(replacement, true);
    RequestKeepsInterrupted(s0, d.containers, before, original, container, backup, Some(replacement),
                            Switch(replacement, true));
    if !ok {
      return Err(RequestFailed), looks, start, finish;
    }
    var began: int :| true;
    var deadline := began + waitSeconds;
    var clock: int :| clock >= began;
    start, finish := began, clock;
    while clock < deadline
      invariant d.alwaysSafe == old(d.alwaysSafe) && old(d.faults) <= d.faults
      invariant Interrupted(d.containers, before, original, container, backup, Some(replacement))
      invariant d.containers[replacement].settings == old(d.containers[replacement].settings)
      invariant d.sent == old(d.sent) + [Switched(replacement, true)]
      invariant AreUndecided(looks) && finish == clock && start == began && deadline == began + waitSeconds
    {
      ghost var s1 := d.containers;
      var current := d.Inspect(ById(replacement));
      DriftKeepsInterrupted(s1, d.containers, before, original, container, backup, Some(replacement));
      if current.Err? || current.value.None? {
        return Err(RequestFailed), looks, start, finish;
      }
      ghost var earlier := looks;
      looks := looks + [current.value.value.container];
      assert looks[..|looks| - 1] == earlier;
      if !current.value.value.container.running {
        return Err(ReplacementExited), looks, start, finish;
      }
      if current.value.value.container.healthy {
        return Ok(()), looks, start, finish;
      }
      var later: int :| later >= clock + 2;
      clock := later;
      finish := clock;
    }
    r := Err(NotReady);
  }

  /** How a call of `repair` ends. */
  datatype Outcome =
    | DryRun(plan: Plan)
    | Healthy(replacement: Id)
    | Refused(error: Error)
    | RolledBack(nameRestored: bool)
    | RollbackFailed(error: Error)

  /** The moment the rollback begins: the daemon, and the replacement's id as known and as created. */
  datatype Entry = Entry(containers: Containers, faults: nat, known: Option<Id>, made: Option<Id>)

  /** A repair that succeeded: the replacement runs healthy under the scanner's name, the original is kept, stopped. */
  ghost predicate IsReplaced(s: Containers, before: Containers, id: Id, container: string, backup: string,
                             replacement: Id, honoursPlan: bool)
  {
    && Interrupted(s, before, id, container, backup, Some(replacement))
    && s[replacement].running && s[replacement].healthy
    && s[replacement].settings.image == before[id].settings.image
    && s[replacement].settings.env == before[id].settings.env
    && (honoursPlan ==> Succeeds(s[replacement].settings, before[id].settings))
  }

  /** A rollback: it restores the original exactly when the replacement is recognised and the original stays up. */
  ghost predicate IsRecovery(d: Daemon, before: Containers, id: Id, container: string, backup: string,
                             outcome: Outcome, entry: Entry)
    reads d
  {
    && id in before && id in d.containers
    && Interrupted(entry.containers, before, id, container, backup, entry.made)
    && entry.faults <= d.faults
    && var lost := Unrecognisable(entry.containers, before, id, entry.known, entry.made);
    && (lost ==> outcome.RollbackFailed? && !d.containers[id].running && !d.honoursPlan)
    && (d.faults == entry.faults && !lost ==>
          && Adds(before, d.containers, None)
          && d.containers[id].name == container
          && outcome == if d.justExited then RollbackFailed(OriginalNotRestored) else RolledBack(true))
  }

  /** What the checks before the first change say. */
  datatype Verdict = Refuse(error: Error) | Show(plan: Plan) | Proceed(original: Seen, plan: Plan)

  lemma {:induction false} DriftsOn(s: Containers, t: Containers, u: Containers)
    requires Drifts(s, t) && Drifts(t, u)
    ensures Drifts(s, u)
  {
    forall i: Id | i in s
      ensures IsKept(s, u, i)
    {
      assert IsKept(s, t, i) && IsKept(t, u, i);
    }
  }

  lemma {:induction false} HolderIsSole(s: Containers, t: Containers, id: Id, name: string)
    requires UniqueNames(s) && Drifts(s, t) && HasName(t, id, name)
    ensures SoleHolder(t, id, name)
  {
    assert IsKept(s, t, id);
    forall i: Id | HasName(t, i, name)
      ensures i == id
    {
      assert IsKept(s, t, i);
    }
  }

  predicate AreDistinctScanners(container: string, backup: string) {
    IsScannerName(container) && IsScannerName(backup) && container != backup
  }

  /** The verdict on a repair of container `c`, which has the scanner's name at the first look. */
  ghost predicate IsVerdict(verdict: Verdict, id: Id, c: Container, apply: bool, backupIsFree: bool) {
    if !c.running then verdict == Refuse(NotRunning)
    else if !IsRepairable(c.settings) then verdict == Refuse(UnsuitableContainer)
    else if !apply then verdict.Show? && IsPlanFor(verdict.plan, c.settings)
    else if !backupIsFree then verdict == Refuse(BackupNameExists)
    else verdict.Proceed? && verdict.original == Seen(id, c) && IsPlanFor(verdict.plan, c.settings)
  }

  /** The verdict of the checks; `first` is the daemon at the first look, `last` at the last, `failed` that a look failed. */
  ghost predicate IsChecked(verdict: Verdict, first: Containers, last: Containers, container: string, backup: string,
                            apply: bool, failed: bool)
  {
    && (verdict == Refuse(InvalidNames) <==> !AreDistinctScanners(container, backup))
    && (AreDistinctScanners(container, backup) && NameFree(first, container) ==> verdict == Refuse(RequestFailed))
    && (AreDistinctScanners(container, backup) ==>
          forall i: Id {:trigger HasName(first, i, container)} | HasName(first, i, container) ::
            || IsVerdict(verdict, i, first[i], apply, NameFree(last, backup))
            || (failed && verdict == Refuse(RequestFailed)))
  }

  /** Everything `repair` checks before it changes anything. */
  method Preflight(d: Daemon, container: string, backup: string, apply: bool)
    returns (verdict: Verdict, ghost first: Containers)
    requires UniqueNames(d.containers)
    modifies d`containers, d`alwaysSafe, d`faults, d`justExited
    ensures old(d.faults) <= d.faults
    ensures Drifts(old(d.containers), first) && Drifts(first, d.containers) && Drifts(old(d.containers), d.containers)
    ensures IsChecked(verdict, first, d.containers, container, backup, apply, d.faults > old(d.faults))
    ensures verdict.Proceed? ==>
              var id, settings := verdict.original.id, verdict.original.container.settings;
              && apply && container != backup
              && HasName(first, id, container) && first[id].running
              && SoleHolder(d.containers, id, container) && NameFree(d.containers, backup)
              && settings == d.containers[id].settings && IsPlanFor(verdict.plan, settings)
  {
    ghost var s0 := d.containers;
    first := s0;
    assert Drifts(s0, s0);
    if !IsScannerName(container) || !IsScannerName(backup) || container == backup {
      return Refuse(InvalidNames), first;
    }
    var seen := d.Inspect(ByName(container));
    first := d.containers;
    assert Drifts(first, first);
    if seen.Err? {
      return Refuse(RequestFailed), first;
    }
    if seen.value.None? {
      assert NameFree(first, container);
      return Refuse(RequestFailed), first;
    }
    var original := seen.value.value;
    assert HasName(first, original.id, container);
    HolderIsSole(s0, first, original.id, container);
    if !original.container.running {
      return Refuse(NotRunning), first;
    }
    var plan := RepairPlan(original.container);
    if plan.Err? {
      return Refuse(plan.error), first;
    }
    if !apply {
      return Show(plan.value), first;
    }
    var taken := d.Inspect(ByName(backup));
    DriftsOn(s0, first, d.containers);
    if taken.Err? {
      return Refuse(taken.error), first;
    }
    if taken.value.Some? {
      assert HasName(d.containers, taken.value.value.id, backup);
      return Refuse(BackupNameExists), first;
    }
    assert NameFree(d.containers, backup);
    assert IsKept(first, d.containers, original.id);
    HolderIsSole(s0, d.containers, original.id, container);
    verdict := Proceed(original, plan.value);
  }

  /** The outcome is the one that the checks lead to. */
  predicate IsAnswer(outcome: Outcome, verdict: Verdict) {
    match verdict
    case Refuse(error) => outcome == Refused(error)
    case Show(plan) => outcome == DryRun(plan)
    case Proceed(_, _) => outcome.Healthy? || outcome.RolledBack? || outcome.RollbackFailed?
  }

  /** From place `n` on, the four requests of a repair that succeeds, and nothing else. */
  predicate AreForward(sent: seq<Sent>, n: nat, id: Id, container: string, backup: string, plan: Plan, replacement: Id) {
    && |sent| == n + 4
    && sent[n..] == [Switched(id, false), Labelled(id, backup), Asked(container, plan), Switched(replacement, true)]
  }

  /** The fourth request starts a container. */
  predicate IsLaunched(sent: seq<Sent>, n: nat) {
    |sent| >= n + 4 && sent[n + 3].Switched? && sent[n + 3].on
  }

  /** The forward steps: a healthy replacement, or a state that recovery can handle. */
  method Attempt(d: Daemon, original: Seen, container: string, backup: string, plan: Plan, waitSeconds: int,
                 ghost before: Containers)
    returns (healthy: Option<Id>, newId: Option<Id>, ghost made: Option<Id>, ghost looks: seq<Container>)
    requires Watches(d, original.id, before) && before == d.containers
    requires SoleHolder(before, original.id, container) && container != backup
    requires original.container.settings == before[original.id].settings
    requires IsPlanFor(plan, original.container.settings)
    modifies d`containers, d`alwaysSafe, d`faults, d`justExited, d`sent, d`unanswered
    ensures d.alwaysSafe == old(d.alwaysSafe)
    ensures Interrupted(d.containers, before, original.id, container, backup, made)
    ensures newId.Some? ==> newId == made
    ensures old(d.faults) <= d.faults && old(d.sent) <= d.sent
    ensures healthy.Some? ==>
              && d.sent == old(d.sent) + [Switched(original.id, false), Labelled(original.id, backup),
                                          Asked(container, plan), Switched(healthy.value, true)]
    ensures d.faults == old(d.faults) && NameFree(before, backup) ==>
              && made.Some? && newId == made
              && (healthy.Some? <==> Judge(looks).Ok?)
              && (d.honoursPlan ==> IsLaunched(d.sent, |old(d.sent)|))
    ensures healthy.Some? ==>
              && healthy == made
              && d.containers[healthy.value].running && d.containers[healthy.value].healthy
              && SameBuild(d.containers[healthy.value].settings, before[original.id].settings)
    ensures d.honoursPlan && made.Some? ==> Succeeds(d.containers[made.value].settings, before[original.id].settings)
  {
    healthy, newId, made, looks := None, None, None, [];
    var aside := StepAside(d, original.id, container, backup, before);
    if aside {
      var built;
      built, newId, made := Build(d, original, container, backup, plan, before);
      if built.Ok? {
        var launched;
        ghost var start, finish;
        launched, looks, start, finish := Launch(d, built.value, waitSeconds, original.id, container, backup, before);
        healthy := if launched.Ok? then Some(built.value) else None;
      }
    }
  }

  /** The part of `repair` after its checks: the forward steps, and the rollback if one of them failed. */
  method Replace(d: Daemon, original: Seen, container: string, backup: string, plan: Plan, waitSeconds: int,
                 ghost before: Containers)
    returns (outcome: Outcome, ghost entry: Entry, ghost looks: seq<Container>)
    requires before == d.containers
    requires SoleHolder(before, original.id, container) && container != backup
    requires original.container.settings == before[original.id].settings
    requires IsPlanFor(plan, original.container.settings)
    modifies d
    ensures Watches(d, original.id, before) && d.alwaysSafe
    ensures OthersUntouched(before, d.containers, original.id)
    ensures original.id in d.containers && d.containers[original.id].settings == before[original.id].settings
    ensures outcome.Healthy? || outcome.RolledBack? || outcome.RollbackFailed?
    ensures old(d.faults) <= d.faults
    ensures d.faults == old(d.faults) && NameFree(before, backup) ==>
              && (outcome.Healthy? <==> Judge(looks).Ok?)
              && (outcome.Healthy? || outcome == if d.justExited then RollbackFailed(OriginalNotRestored) else RolledBack(true))
              && (d.honoursPlan ==> IsLaunched(d.sent, |old(d.sent)|))
    ensures outcome.Healthy? ==>
              && old(d.sent) <= d.sent
              && AreForward(d.sent, |old(d.sent)|, original.id, container, backup, plan, outcome.replacement)
    ensures outcome.Healthy? ==>
              IsReplaced(d.containers, before, original.id, container, backup, outcome.replacement, d.honoursPlan)
    ensures outcome.RolledBack? ==>
              && d.containers[original.id].running
              && (outcome.nameRestored <==> d.containers[original.id].name == container)
    ensures outcome.RolledBack? || outcome.RollbackFailed? ==>
              IsRecovery(d, before, original.id, container, backup, outcome, entry)
  {
    entry := Entry(map[], 0, None, None);
    d.watched, d.base, d.alwaysSafe := original.id, before.Keys, true;
    var healthy, newId;
    ghost var made;
    healthy, newId, made, looks := Attempt(d, original, container, backup, plan, waitSeconds, before);
    if healthy.Some? {
      return Healthy(healthy.value), entry, looks;
    }
    entry := Entry(d.containers, d.faults, newId, made);
    var restored := RestoreOriginal(d, original, container, backup, newId, before, made);
    outcome := if restored.Ok? then RolledBack(restored.value.nameRestored) else RollbackFailed(restored.error);
  }

  method Repair(d: Daemon, container: string, backup: string, apply: bool, waitSeconds: int)
    returns (outcome: Outcome, ghost before: Containers, ghost id: Id, ghost entry: Entry,
             ghost first: Containers, ghost verdict: Verdict, ghost failed: bool, ghost looks: seq<Container>)
    requires UniqueNames(d.containers)
    modifies d
    // The checks decide alone, and what each of them decides is exact: only a running, repairable scanner goes on.
    ensures Drifts(old(d.containers), first) && Drifts(first, before) && old(d.faults) <= d.faults
    ensures IsChecked(verdict, first, before, container, backup, apply, failed)
    ensures failed ==> d.faults > old(d.faults)
    ensures IsAnswer(outcome, verdict)
    ensures verdict.Proceed? ==> id == verdict.original.id && HasName(first, id, container) && first[id].running
    // A refusal or a dry run sends nothing and changes nothing.
    ensures outcome.Refused? || outcome.DryRun? ==>
              d.sent == old(d.sent) && d.containers == before && Drifts(old(d.containers), d.containers)
    ensures outcome.DryRun? ==> !apply
    // Without faults the outcome is what the looks at the replacement say, and a failure is rolled back.
    ensures d.faults == old(d.faults) && verdict.Proceed? ==>
              && (outcome.Healthy? <==> Judge(looks).Ok?)
              && (outcome.Healthy? || outcome == if d.justExited then RollbackFailed(OriginalNotRestored) else RolledBack(true))
              && (d.honoursPlan ==> IsLaunched(d.sent, |old(d.sent)|))
    // Otherwise: every state after every request was safe, and nothing else was touched.
    ensures outcome.Healthy? || outcome.RolledBack? || outcome.RollbackFailed? ==>
              && apply
              && Drifts(old(d.containers), before)
              && SoleHolder(before, id, container) && NameFree(before, backup)
              && Watches(d, id, before) && d.alwaysSafe
              && OthersUntouched(before, d.containers, id)
              && id in d.containers && d.containers[id].settings == before[id].settings
    // Success: exactly four requests were sent.
    ensures outcome.Healthy? ==>
              && old(d.sent) <= d.sent && IsPlanFor(verdict.plan, before[id].settings)
              && AreForward(d.sent, |old(d.sent)|, id, container, backup, verdict.plan, outcome.replacement)
              && IsReplaced(d.containers, before, id, container, backup, outcome.replacement, d.honoursPlan)
    // A reported rollback is real.
    ensures outcome.RolledBack? ==>
              && d.containers[id].running
              && (outcome.nameRestored <==> d.containers[id].name == container)
    ensures outcome.RolledBack? || outcome.RollbackFailed? ==>
              IsRecovery(d, before, id, container, backup, outcome, entry)
  {
    id, entry, looks := 0, Entry(map[], 0, None, None), [];
    var checked;
    checked, first := Preflight(d, container, backup, apply);
    verdict, before, failed := checked, d.containers, d.faults > old(d.faults);
    match checked
    case Refuse(error) => outcome := Refused(error);
    case Show(plan) => outcome := DryRun(plan);
    case Proceed(original, plan) =>
      id := original.id;
      outcome, entry, looks := Replace(d, original, container, backup, plan, waitSeconds, before);
  }

  //// When recovery cannot work

  /** The state after the requests were carried out one after another; `None` if one was not possible. */
  function After(s: Containers, requests: seq<Request>): Option<Containers> {
    if requests == [] then Some(s)
    else
      var front, q := After(s, requests[..|requests| - 1]), requests[|requests| - 1];
      if front.Some? && IsPossible(front.value, q) then Some(Effect(front.value, q)) else None
  }

  /** Stop and rename the original, and a create whose reply is lost and that built `built`. */
  function Forward(original: Id, container: string, backup: string, made: Id, built: Settings): seq<Request> {
    [Switch(original, false), Label(original, backup), Make(made, container, built)]
  }

  lemma {:induction false} ForwardSteps(before: Containers, original: Id, container: string, backup: string, made: Id,
                                        built: Settings)
    requires SoleHolder(before, original, container) && NameFree(before, backup)
    requires container != backup && made !in before
    ensures var aside := before[original := before[original].(name := backup, running := false)];
            After(before, Forward(original, container, backup, made, built))
            == Some(aside[made := Container(container, built, false, false)])
  {
    var requests := Forward(original, container, backup, made, built);
    var stopped := Effect(before, Switch(original, false));
    assert requests[..2] == [Switch(original, false), Label(original, backup)];
    assert requests[..2][..1] == [Switch(original, false)] && [Switch(original, false)][..0] == [];
    assert After(before, [Switch(original, false)]) == Some(stopped);
    forall i: Id | i in stopped
      ensures !HasName(stopped, i, backup)
    {
      assert !HasName(before, i, backup);
    }
    var aside := Effect(stopped, Label(original, backup));
    assert aside == before[original := before[original].(name := backup, running := false)];
    assert After(before, requests[..2]) == Some(aside);
    forall i: Id | i in aside
      ensures !HasName(aside, i, container)
    {
      assert HasName(before, i, container) ==> i == original;
    }
    assert requests[..|requests| - 1] == requests[..2];
  }

  /** From every start, these requests reach a state whose recovery is blocked, whatever image or environment differs. */
  lemma {:induction false} WrongBuildIsUnrecognisable(before: Containers, original: Id, container: string,
                                                      backup: string, made: Id, built: Settings)
    requires SoleHolder(before, original, container) && NameFree(before, backup)
    requires container != backup && made !in before
    requires !SameBuild(built, before[original].settings)
    ensures var s := After(before, Forward(original, container, backup, made, built));
            && s.Some?
            && Interrupted(s.value, before, original, container, backup, Some(made))
            && Unrecognisable(s.value, before, original, None, Some(made))
            && !s.value[original].running && !s.value[made].running
  {
    ForwardSteps(before, original, container, backup, made, built);
  }

  /** One scanner that ends up stopped: the contract of `RestoreOriginal` rules out a restart from there. */
  lemma OneScannerIsNotRestored()
    ensures var settings := Settings("sha256:1", "scanner:1", ["RPC=1"], SHELL_PROBE, "", "bridge", map[]);
            var before := map[1 := Container("ocrypt-scanner-eth", settings, true, true)];
            var built := settings.(image := "sha256:2");
            var s := After(before, Forward(1, "ocrypt-scanner-eth", "ocrypt-scanner-old", 2, built));
            && RepairPlan(before[1]).Ok?
            && s.Some?
            && Interrupted(s.value, before, 1, "ocrypt-scanner-eth", "ocrypt-scanner-old", Some(2))
            && Unrecognisable(s.value, before, 1, None, Some(2))
            && !s.value[1].running && !s.value[2].running
  {
    var settings := Settings("sha256:1", "scanner:1", ["RPC=1"], SHELL_PROBE, "", "bridge", map[]);
    var before := map[1 := Container("ocrypt-scanner-eth", settings, true, true)];
    var built := settings.(image := "sha256:2");
    WrongBuildIsUnrecognisable(before, 1, "ocrypt-scanner-eth", "ocrypt-scanner-old", 2, built);
  }
}
