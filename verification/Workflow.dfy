/**
 Allocation of workers and snapshots of a task, which share one state file guarded by a lock file.

 A process reads the state file, creates the lock file, reads the state again, works, replaces the
 state file in one step and removes the lock file. What git and the disk answer is an input of every
 step, and a process may be killed at any point.
 */
module Workflow {
  import opened Prelude

  datatype Record = Record(branch: string, path: string, base: string)

  /** The state file. */
  datatype Task = Task(slug: string, base: string, workers: map<string, Record>, completed: map<string, Record>)

  const WORKTREES := ".ocrypt-agent-worktrees/"

  function RecordFor(slug: string, worker: string, base: string): Record {
    Record("agent/" + slug + "/" + worker, WORKTREES + slug + "/" + worker, base)
  }

  predicate IsSlug(s: string) {
    1 <= |s| <= 48 && s[0] != '-' && forall i | 0 <= i < |s| :: IsSlugChar(s[i])
  }

  predicate IsSmallAlphanumeric(c: char) {
    'a' <= c <= 'z' || '0' <= c <= '9'
  }

  /** A small letter or digit, and then at most 47 of these or hyphens. */
  lemma {:induction false} SlugsMatchPattern(s: string)
    ensures IsSlug(s) <==>
            && s != "" && IsSmallAlphanumeric(s[0])
            && |s[1..]| <= 47 && forall c | c in s[1..] :: IsSmallAlphanumeric(c) || c == '-'
  {
    if s != "" && IsSmallAlphanumeric(s[0]) && forall c | c in s[1..] :: IsSmallAlphanumeric(c) || c == '-' {
      forall i | 0 <= i < |s|
        ensures IsSlugChar(s[i])
      {
        assert i > 0 ==> s[i] == s[1..][i - 1] && s[1..][i - 1] in s[1..];
      }
    }
  }

  //// Every worker has a branch and a directory of its own

  lemma {:induction false} SplitAtSlash(a: string, b: string, c: string, d: string)
    requires a + "/" + b == c + "/" + d && '/' !in a && '/' !in c
    ensures a == c && b == d
  {
    var s := a + "/" + b;
    assert s[|a|] == '/' && s[|c|] == '/';
    assert |a| == |c|;
    assert a == s[..|a|] && c == s[..|c|];
    assert b == s[|a| + 1..] && d == s[|c| + 1..];
  }

  lemma {:induction false} SamePrefix(p: string, a: string, b: string)
    requires p + a == p + b
    ensures a == b
  {
    assert a == (p + a)[|p|..] && b == (p + b)[|p|..];
  }

  lemma {:induction false} SlugHasNoSlash(s: string)
    requires IsSlug(s)
    ensures '/' !in s
  {
  }

  /** Different workers, or workers of different tasks, never share a branch or a directory. */
  lemma {:induction false} RecordsAreDistinct(slug: string, worker: string, base: string,
                                              slug': string, worker': string, base': string)
    requires IsSlug(slug) && IsSlug(slug')
    ensures var a, b := RecordFor(slug, worker, base), RecordFor(slug', worker', base');
            a.branch == b.branch || a.path == b.path ==> slug == slug' && worker == worker'
  {
    SlugHasNoSlash(slug);
    SlugHasNoSlash(slug');
    var x, y := slug + "/" + worker, slug' + "/" + worker';
    var a, b := RecordFor(slug, worker, base), RecordFor(slug', worker', base');
    assert a.branch == "agent/" + x && b.branch == "agent/" + y;
    assert a.path == WORKTREES + x && b.path == WORKTREES + y;
    if a.branch == b.branch {
      SamePrefix("agent/", x, y);
      SplitAtSlash(slug, worker, slug', worker');
    }
    if a.path == b.path {
      SamePrefix(WORKTREES, x, y);
      SplitAtSlash(slug, worker, slug', worker');
    }
  }

  /** The record names the worker's branch and directory and the commit it starts from. */
  predicate IsRecordOf(record: Record, slug: string, worker: string, base: string) {
    && record.branch == "agent/" + slug + "/" + worker
    && record.path == ".ocrypt-agent-worktrees/" + slug + "/" + worker
    && record.base == base
  }

  predicate IsKnown(task: Task, worker: string) {
    worker in task.workers || worker in task.completed
  }

  //// What a process wants

  datatype Job = Add(worker: string) | Snapshot

  /** The state that an allocation writes. */
  function Added(task: Task, worker: string): Task {
    task.(workers := task.workers[worker := RecordFor(task.slug, worker, task.base)])
  }

  /** The state that a snapshot writes. */
  function Snapshotted(task: Task, head: string): Task {
    Task(task.slug, head, map[], task.completed + task.workers)
  }

  /** Whether the job may go on from this state. */
  predicate IsOpen(job: Job, task: Task) {
    job.Add? ==> !IsKnown(task, job.worker)
  }

  //// One process

  /** Where a process stands. `copy` is the state it read under the lock, `next` the one it will write. */
  datatype Process =
    | Started(job: Job)
    | Loaded(job: Job)
    | Checked(job: Job)
    | Holding(job: Job)
    | Reread(job: Job, copy: Task)
    | Ready(job: Job, next: Task)
    | Written(job: Job)
    | Failing(job: Job)
    | Done(job: Job)
    | Failed(job: Job)
    | Killed(job: Job, wrote: bool)

  datatype Shared = Shared(file: Task, locked: bool, trees: set<string>)

  /**
   What happens to a process in a step: whether git, the checks or the disk let it go on, the commit
   that HEAD names, whether a failed `git worktree add` leaves a directory, and whether it is killed.
   */
  datatype Choice = Choice(ok: bool, head: string, leaves: bool, killed: bool)

  function Move(q: Process, s: Shared, c: Choice): (Process, Shared) {
    if q.Done? || q.Failed? || q.Killed? then (q, s)
    else if c.killed then (Killed(q.job, q.Written?), s)
    else match q
      case Started(job) =>
        if c.ok && (job.Add? ==> IsSlug(job.worker)) && IsOpen(job, s.file) then (Loaded(job), s) else (Failed(job), s)
      case Loaded(job) =>
        if job.Add? && job.worker in s.trees then (Failed(job), s) else (Checked(job), s)
      case Checked(job) =>
        if s.locked then (Failed(job), s) else (Holding(job), s.(locked := true))
      case Holding(job) =>
        if c.ok && IsOpen(job, s.file) then (Reread(job, s.file), s) else (Failing(job), s)
      case Reread(Add(worker), copy) =>
        (if c.ok then Ready(q.job, Added(copy, worker)) else Failing(q.job),
         if c.ok || c.leaves then s.(trees := s.trees + {worker}) else s)
      case Reread(Snapshot, copy) =>
        (if c.ok then Ready(q.job, Snapshotted(copy, c.head)) else Failing(q.job), s)
      case Ready(job, next) =>
        if c.ok then (Written(job), s.(file := next)) else (Failing(job), s)
      case Written(job) => (Done(job), s.(locked := false))
      case Failing(job) => (Failed(job), s.(locked := false))
  }

  /** A process that nobody interrupts. */
  function Follow(q: Process, s: Shared, choices: seq<Choice>): (Process, Shared) {
    if choices == [] then (q, s)
    else
      var (q', s') := Follow(q, s, choices[..|choices| - 1]);
      Move(q', s', choices[|choices| - 1])
  }

  //// The program

  datatype Error = InvalidSlug | LoadFailed | WorkerExists | DirectoryExists | LockExists | NotIntegrated | GitFailed | WriteFailed

  /** What git and the disk answer during one call. */
  datatype Answers = Answers(
    firstLoad: bool, secondLoad: bool, worktree: bool, leaves: bool, write: bool,
    clean: bool, head: string, pending: set<string>, revisions: map<string, string>, ancestors: set<string>)

  /** The worker has no pending changes and its revision is part of HEAD. */
  predicate IsIntegrated(a: Answers, worker: string) {
    worker !in a.pending && worker in a.revisions && a.revisions[worker] in a.ancestors
  }

  class Repository {
    var file: Task
    var locked: bool
    var trees: set<string>

    constructor (file: Task, trees: set<string>)
      ensures Contents() == Shared(file, false, trees)
    {
      this.file, this.locked, this.trees := file, false, trees;
    }

    function Contents(): Shared
      reads this
    {
      Shared(file, locked, trees)
    }

    /** Create the lock file, which fails if it exists. */
    method Acquire(job: Job, a: Answers, ghost s0: Shared, ghost choices0: seq<Choice>)
      returns (ok: bool, ghost choices: seq<Choice>)
      requires Follow(Started(job), s0, choices0) == (Checked(job), Contents())
      modifies this`locked
      ensures ok == !old(locked) && locked
      ensures Follow(Started(job), s0, choices) == (if ok then Holding(job) else Failed(job), Contents())
    {
      choices := Took(Started(job), s0, choices0, Went(true, a));
      ok := !locked;
      locked := true;
    }

    /** Remove the lock file, whether the work under it succeeded or not. */
    method Release(job: Job, a: Answers, ok: bool, ghost s0: Shared, ghost choices0: seq<Choice>)
      returns (ghost choices: seq<Choice>)
      requires Follow(Started(job), s0, choices0) == (if ok then Written(job) else Failing(job), Contents())
      modifies this`locked
      ensures !locked
      ensures Follow(Started(job), s0, choices) == (if ok then Done(job) else Failed(job), Contents())
    {
      choices := Took(Started(job), s0, choices0, Went(true, a));
      locked := false;
    }

    method AddWorker(worker: string, a: Answers) returns (r: Result<Record, Error>, ghost choices: seq<Choice>)
      modifies this
      ensures Follow(Started(Add(worker)), old(Contents()), choices)
           == (if r.Ok? then Done(Add(worker)) else Failed(Add(worker)), Contents())
      ensures locked == old(locked)
      ensures r.Ok? <==>
              && IsSlug(worker) && a.firstLoad && !IsKnown(old(file), worker) && worker !in old(trees)
              && !old(locked) && a.secondLoad && a.worktree && a.write
      ensures file == if r.Ok? then Added(old(file), worker) else old(file)
      ensures r.Ok? ==> worker in file.workers && r.value == file.workers[worker]
      ensures r == Err(LockExists) <==>
              && old(locked) && IsSlug(worker) && a.firstLoad && !IsKnown(old(file), worker) && worker !in old(trees)
      ensures r == Err(WriteFailed) ==> worker in trees
      ensures r.Ok? ==> IsRecordOf(r.value, old(file).slug, worker, old(file).base) && worker in trees
      ensures r.Ok? ==> file.base == old(file).base && file.completed == old(file).completed
      ensures r.Ok? ==> file.workers == old(file).workers[worker := r.value]
    {
      ghost var s0 := Contents();
      var error;
      error, choices := Precheck(worker, a);
      if error.Some? {
        return Err(error.value), choices;
      }
      var acquired;
      acquired, choices := Acquire(Add(worker), a, s0, choices);
      if !acquired {
        return Err(LockExists), choices;
      }
      r, choices := Allocate(worker, a, s0, choices);
      choices := Release(Add(worker), a, r.Ok?, s0, choices);
    }

    /** The part of `add_worker` before the lock. */
    method Precheck(worker: string, a: Answers) returns (error: Option<Error>, ghost choices: seq<Choice>)
      ensures Follow(Started(Add(worker)), Contents(), choices)
           == (if error.None? then Checked(Add(worker)) else Failed(Add(worker)), Contents())
      ensures error
           == if !IsSlug(worker) then Some(InvalidSlug)
              else if !a.firstLoad then Some(LoadFailed)
              else if worker in file.workers || worker in file.completed then Some(WorkerExists)
              else if worker in trees then Some(DirectoryExists)
              else None
    {
      ghost var q := Started(Add(worker));
      choices := Took(q, Contents(), [], Went(a.firstLoad, a));
      if !IsSlug(worker) {
        return Some(InvalidSlug), choices;
      }
      if !a.firstLoad {
        return Some(LoadFailed), choices;
      }
      if worker in file.workers || worker in file.completed {
        return Some(WorkerExists), choices;
      }
      choices := Took(q, Contents(), choices, Went(true, a));
      if worker in trees {
        return Some(DirectoryExists), choices;
      }
      error := None;
    }

    /** The part of `add_worker` inside the lock. */
    method Allocate(worker: string, a: Answers, ghost s0: Shared, ghost choices0: seq<Choice>)
      returns (r: Result<Record, Error>, ghost choices: seq<Choice>)
      requires Follow(Started(Add(worker)), s0, choices0) == (Holding(Add(worker)), Contents())
      modifies this`file, this`trees
      ensures Follow(Started(Add(worker)), s0, choices)
           == (if r.Ok? then Written(Add(worker)) else Failing(Add(worker)), Contents())
      ensures r.Ok? <==> a.secondLoad && !IsKnown(old(file), worker) && a.worktree && a.write
      ensures r.Err? ==>
                r.error == if !a.secondLoad then LoadFailed else if IsKnown(old(file), worker) then WorkerExists
                           else if !a.worktree then GitFailed else WriteFailed
      ensures trees == if a.secondLoad && !IsKnown(old(file), worker) && (a.worktree || a.leaves)
                       then old(trees) + {worker} else old(trees)
      ensures file == if r.Ok? then Added(old(file), worker) else old(file)
      ensures r.Ok? ==> worker in file.workers && r.value == file.workers[worker]
    {
      ghost var q := Started(Add(worker));
      choices := Took(q, s0, choices0, Went(a.secondLoad, a));
      if !a.secondLoad {
        return Err(LoadFailed), choices;
      }
      var state := file;
      if worker in state.workers || worker in state.completed {
        return Err(WorkerExists), choices;
      }
      choices := Took(q, s0, choices, Went(a.worktree, a));
      if a.worktree || a.leaves {
        trees := trees + {worker};
      }
      if !a.worktree {
        return Err(GitFailed), choices;
      }
      var record := RecordFor(state.slug, worker, state.base);
      state := state.(workers := state.workers[worker := record]);
      choices := Took(q, s0, choices, Went(a.write, a));
      if !a.write {
        return Err(WriteFailed), choices;
      }
      file := state;
      r := Ok(record);
    }

    method SnapshotTask(a: Answers) returns (r: Result<string, Error>, ghost choices: seq<Choice>)
      modifies this
      ensures Follow(Started(Snapshot), old(Contents()), choices)
           == (if r.Ok? then Done(Snapshot) else Failed(Snapshot), Contents())
      ensures locked == old(locked) && trees == old(trees)
      ensures r.Ok? <==>
              && a.firstLoad && !old(locked) && a.secondLoad && a.clean && a.write
              && forall worker | worker in old(file).workers ::
                   worker !in a.pending && worker in a.revisions && a.revisions[worker] in a.ancestors
      ensures file == if r.Ok? then Snapshotted(old(file), a.head) else old(file)
      ensures r.Ok? ==> r.value == file.base == a.head && file.slug == old(file).slug
      ensures r.Ok? ==> file.workers == map[] && file.completed == old(file).completed + old(file).workers
    {
      ghost var s0 := Contents();
      choices := Took(Started(Snapshot), s0, [], Went(a.firstLoad, a));
      if !a.firstLoad {
        return Err(LoadFailed), choices;
      }
      choices := Took(Started(Snapshot), s0, choices, Went(true, a));
      var acquired;
      acquired, choices := Acquire(Snapshot, a, s0, choices);
      if !acquired {
        return Err(LockExists), choices;
      }
      r, choices := Complete(a, s0, choices);
      choices := Release(Snapshot, a, r.Ok?, s0, choices);
    }

    /** The part of `snapshot_task` inside the lock. */
    method Complete(a: Answers, ghost s0: Shared, ghost choices0: seq<Choice>)
      returns (r: Result<string, Error>, ghost choices: seq<Choice>)
      requires Follow(Started(Snapshot), s0, choices0) == (Holding(Snapshot), Contents())
      modifies this`file
      ensures Follow(Started(Snapshot), s0, choices)
           == (if r.Ok? then Written(Snapshot) else Failing(Snapshot), Contents())
      ensures r.Ok? <==>
              && a.secondLoad && a.clean && a.write
              && forall worker | worker in old(file).workers :: IsIntegrated(a, worker)
      ensures file == if r.Ok? then Snapshotted(old(file), a.head) else old(file)
      ensures r.Ok? ==> r.value == file.base
    {
      ghost var q := Started(Snapshot);
      choices := Took(q, s0, choices0, Went(a.secondLoad, a));
      if !a.secondLoad {
        return Err(LoadFailed), choices;
      }
      var state := file;
      var integrated := AllIntegrated(state.workers.Keys, a);
      choices := Took(q, s0, choices, Went(a.clean && integrated, a));
      if !a.clean || !integrated {
        return Err(NotIntegrated), choices;
      }
      state := state.(completed := state.completed + state.workers);
      state := state.(workers := map[]);
      state := state.(base := a.head);
      choices := Took(q, s0, choices, Went(a.write, a));
      if !a.write {
        return Err(WriteFailed), choices;
      }
      file := state;
      r := Ok(a.head);
    }
  }

  method AllIntegrated(workers: set<string>, a: Answers) returns (ok: bool)
    ensures ok <==> forall worker | worker in workers ::
                      worker !in a.pending && worker in a.revisions && a.revisions[worker] in a.ancestors
  {
    var rest := workers;
    while rest != {}
      invariant rest <= workers
      invariant forall worker | worker in workers && worker !in rest :: IsIntegrated(a, worker)
      decreases rest
    {
      var worker :| worker in rest;
      if !IsIntegrated(a, worker) {
        return false;
      }
      rest := rest - {worker};
    }
    ok := true;
  }

  function Went(ok: bool, a: Answers): Choice {
    Choice(ok, a.head, a.leaves, false)
  }

  /** The choices of a run, one step longer. */
  ghost function Took(q: Process, s: Shared, choices: seq<Choice>, c: Choice): (longer: seq<Choice>)
    ensures var (q', s') := Follow(q, s, choices);
            Follow(q, s, longer) == Move(q', s', c)
  {
    assert (choices + [c])[..|choices|] == choices;
    choices + [c]
  }
}
