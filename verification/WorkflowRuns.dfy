/** What every interleaving of allocations and snapshots keeps, with processes killed at any point. */
module WorkflowRuns {
  import opened Prelude
  import opened Workflow

  datatype World = World(shared: Shared, processes: seq<Process>)

  /** One step of one process. */
  datatype Turn = Turn(process: nat, choice: Choice)

  function Step(w: World, t: Turn): World {
    if t.process >= |w.processes| then w
    else
      var (q, s) := Move(w.processes[t.process], w.shared, t.choice);
      World(s, w.processes[t.process := q])
  }

  function Run(w: World, turns: seq<Turn>): World {
    if turns == [] then w else Step(Run(w, turns[..|turns| - 1]), turns[|turns| - 1])
  }

  //// Operations on the state file

  datatype Operation = Allocation(worker: string) | Completion(head: string)

  predicate IsLegal(op: Operation, task: Task) {
    op.Allocation? ==> !IsKnown(task, op.worker)
  }

  function Apply(op: Operation, task: Task): Task {
    match op
    case Allocation(worker) => Added(task, worker)
    case Completion(head) => Snapshotted(task, head)
  }

  /** Active and completed names are disjoint, and every active worker starts from the current base. */
  ghost predicate WellFormed(task: Task) {
    && (forall n | n in task.workers :: n !in task.completed)
    && (forall n | n in task.workers :: IsRecordOf(task.workers[n], task.slug, n, task.base))
  }

  /** All records, active or completed. */
  function Records(task: Task): map<string, Record> {
    task.completed + task.workers
  }

  lemma {:induction false} ApplyKeepsWellFormed(op: Operation, task: Task)
    requires WellFormed(task) && IsLegal(op, task)
    ensures WellFormed(Apply(op, task))
  {
  }

  lemma {:induction false} ApplyKeepsRecords(op: Operation, task: Task)
    requires IsLegal(op, task)
    ensures Records(Apply(op, task))
         == if op.Allocation? then Records(task)[op.worker := RecordFor(task.slug, op.worker, task.base)] else Records(task)
    ensures forall n | n in Records(task) :: n in Records(Apply(op, task)) && Records(Apply(op, task))[n] == Records(task)[n]
  {
  }

  //// One step of a process

  /** The process created the lock file and has not removed it. */
  predicate Holds(q: Process) {
    q.Holding? || q.Reread? || q.Ready? || q.Written? || q.Failing?
  }

  /** The operation that a process is about to write. */
  function Pending(q: Process): Operation
    requires q.Ready?
  {
    match q.job
    case Add(worker) => Allocation(worker)
    case Snapshot => Completion(q.next.base)
  }

  /** What a process remembers of the state file is still what the file holds. */
  predicate IsCurrent(q: Process, file: Task) {
    match q
    case Reread(job, copy) => copy == file && IsOpen(job, file)
    case Ready(job, next) => next == Apply(Pending(q), file) && IsLegal(Pending(q), file)
    case _ => true
  }

  /** A step replaces the state file only by a legal operation on its present contents, and only under the lock. */
  lemma {:induction false} MoveWrites(q: Process, s: Shared, c: Choice)
    requires IsCurrent(q, s.file)
    ensures var (q', s') := Move(q, s, c);
            && IsCurrent(q', s'.file)
            && (s'.file == s.file || (q.Ready? && q'.Written? && IsLegal(Pending(q), s.file)))
            && (q.Ready? && q'.Written? ==> s'.file == Apply(Pending(q), s.file))
            && (q'.Written? || q'.Done? ==> q.Written? || q.Done? || q.Ready?)
            && q'.job == q.job
  {
  }

  lemma {:induction false} MoveLocks(q: Process, s: Shared, c: Choice)
    requires Holds(q) ==> s.locked
    ensures var (q', s') := Move(q, s, c);
            && (Holds(q') ==> s'.locked)
            && (!Holds(q) && s.locked ==> !Holds(q') && s' == s)
            && (s'.locked && !Holds(q') && !c.killed ==> s.locked && !Holds(q))
  {
  }

  //// All processes

  /** The lock file excludes: at most one process holds it, and only while it exists. */
  predicate Excludes(w: World) {
    && (forall i | 0 <= i < |w.processes| && Holds(w.processes[i]) :: w.shared.locked)
    && (forall i, j | 0 <= i < j < |w.processes| :: !Holds(w.processes[i]) || !Holds(w.processes[j]))
  }

  predicate AreCurrent(w: World) {
    forall i | 0 <= i < |w.processes| :: IsCurrent(w.processes[i], w.shared.file)
  }

  lemma {:induction false} StepExcludes(w: World, t: Turn)
    requires Excludes(w)
    ensures Excludes(Step(w, t))
  {
    if t.process < |w.processes| {
      MoveLocks(w.processes[t.process], w.shared, t.choice);
      var w' := Step(w, t);
      forall i | 0 <= i < |w'.processes| && Holds(w'.processes[i])
        ensures w'.shared.locked
        ensures forall j | 0 <= j < |w'.processes| && j != i :: !Holds(w'.processes[j])
      {
      }
    }
  }

  /** While one process steps, what any other remembers stays current. */
  lemma {:induction false} StepKeepsCurrent(w: World, t: Turn)
    requires Excludes(w) && AreCurrent(w)
    ensures AreCurrent(Step(w, t))
  {
    if t.process < |w.processes| {
      var q, w' := w.processes[t.process], Step(w, t);
      MoveWrites(q, w.shared, t.choice);
      forall i | 0 <= i < |w'.processes|
        ensures IsCurrent(w'.processes[i], w'.shared.file)
      {
        if i != t.process && w'.shared.file != w.shared.file {
          assert Holds(q);
          assert !Holds(w.processes[i]);
        }
      }
    }
  }

  //// Whole runs

  /** Nobody has begun, and the state file is well formed. There may be a lock file. */
  ghost predicate IsInitial(w: World) {
    && WellFormed(w.shared.file)
    && forall i | 0 <= i < |w.processes| :: w.processes[i].Started?
  }

  /** The operations that the turns carried out, in order. */
  function Operations(w: World, turns: seq<Turn>): seq<Operation> {
    if turns == [] then []
    else
      var before, t := Run(w, turns[..|turns| - 1]), turns[|turns| - 1];
      Operations(w, turns[..|turns| - 1]) + OperationOf(before, t)
  }

  function OperationOf(w: World, t: Turn): seq<Operation> {
    if Writes(w, t) then [Pending(w.processes[t.process])] else []
  }

  predicate Writes(w: World, t: Turn) {
    && t.process < |w.processes|
    && w.processes[t.process].Ready?
    && Step(w, t).processes[t.process].Written?
  }

  /** The state after the operations, one after another; `None` if one of them was not legal when it came. */
  function Sequentially(task: Task, ops: seq<Operation>): Option<Task> {
    if ops == [] then Some(task)
    else
      var before, op := Sequentially(task, ops[..|ops| - 1]), ops[|ops| - 1];
      if before.Some? && IsLegal(op, before.value) then Some(Apply(op, before.value)) else None
  }

  lemma {:induction false} StepWrites(w: World, t: Turn)
    requires AreCurrent(w)
    ensures Step(w, t).shared.file
         == if Writes(w, t) then Apply(Pending(w.processes[t.process]), w.shared.file) else w.shared.file
    ensures Writes(w, t) ==> IsLegal(Pending(w.processes[t.process]), w.shared.file)
  {
    if t.process < |w.processes| {
      MoveWrites(w.processes[t.process], w.shared, t.choice);
    }
  }

  lemma {:induction false} SequentiallyMore(task: Task, ops: seq<Operation>, op: Operation, now: Task)
    requires Sequentially(task, ops) == Some(now) && IsLegal(op, now)
    ensures Sequentially(task, ops + [op]) == Some(Apply(op, now))
  {
    assert (ops + [op])[..|ops|] == ops;
  }

  /** Every interleaving gives the state file of some sequence of whole, legal operations. */
  lemma {:induction false} RunsAreSerializable(w: World, turns: seq<Turn>)
    requires IsInitial(w)
    ensures Excludes(Run(w, turns)) && AreCurrent(Run(w, turns))
    ensures Sequentially(w.shared.file, Operations(w, turns)) == Some(Run(w, turns).shared.file)
  {
    if turns != [] {
      var front, t := turns[..|turns| - 1], turns[|turns| - 1];
      var before := Run(w, front);
      RunsAreSerializable(w, front);
      StepExcludes(before, t);
      StepKeepsCurrent(before, t);
      StepWrites(before, t);
      if Writes(before, t) {
        SequentiallyMore(w.shared.file, Operations(w, front), Pending(before.processes[t.process]), before.shared.file);
      } else {
        assert Operations(w, front) + [] == Operations(w, front);
      }
    }
  }

  /** Every interleaving: names stay disjoint, and active workers stand on the current base. */
  lemma {:induction false} RunsStayWellFormed(w: World, turns: seq<Turn>)
    requires IsInitial(w)
    ensures WellFormed(Run(w, turns).shared.file)
    ensures var file := Run(w, turns).shared.file;
            forall n | n in file.workers :: n !in file.completed && file.workers[n].base == file.base
  {
    if turns != [] {
      var front, t := turns[..|turns| - 1], turns[|turns| - 1];
      var before := Run(w, front);
      RunsStayWellFormed(w, front);
      RunsAreSerializable(w, front);
      StepWrites(before, t);
      if Writes(before, t) {
        ApplyKeepsWellFormed(Pending(before.processes[t.process]), before.shared.file);
      }
    }
  }

  /** Every interleaving: a record that was in the state file once stays in it, unchanged. */
  lemma {:induction false} NoRecordIsLost(w: World, turns: seq<Turn>, i: nat, worker: string)
    requires IsInitial(w) && i <= |turns|
    requires worker in Records(Run(w, turns[..i]).shared.file)
    ensures worker in Records(Run(w, turns).shared.file)
    ensures Records(Run(w, turns).shared.file)[worker] == Records(Run(w, turns[..i]).shared.file)[worker]
  {
    var n := |turns|;
    if i == n {
      assert turns[..n] == turns;
    } else {
      var front, t := turns[..n - 1], turns[n - 1];
      assert front[..i] == turns[..i];
      NoRecordIsLost(w, front, i, worker);
      RunsAreSerializable(w, front);
      StepWrites(Run(w, front), t);
      if Writes(Run(w, front), t) {
        ApplyKeepsRecords(Pending(Run(w, front).processes[t.process]), Run(w, front).shared.file);
      }
    }
  }

  //// Successful allocations

  /** The process has written this worker's record. */
  predicate Succeeded(q: Process, worker: string) {
    (q.Written? || q.Done? || (q.Killed? && q.wrote)) && q.job == Add(worker)
  }

  /** Among all processes, the ones that succeeded in adding this worker. */
  function Winners(processes: seq<Process>, worker: string): nat {
    if processes == [] then 0
    else Winners(processes[..|processes| - 1], worker) + if Succeeded(processes[|processes| - 1], worker) then 1 else 0
  }

  lemma {:induction false} WinnersOfUpdate(processes: seq<Process>, p: nat, q: Process, worker: string)
    requires p < |processes|
    ensures Winners(processes[p := q], worker)
         == Winners(processes, worker)
          - (if Succeeded(processes[p], worker) then 1 else 0) + if Succeeded(q, worker) then 1 else 0
  {
    var n := |processes| - 1;
    if p < n {
      assert processes[p := q][..n] == processes[..n][p := q];
      WinnersOfUpdate(processes[..n], p, q, worker);
    } else {
      assert processes[p := q][..n] == processes[..n];
    }
  }

  lemma {:induction false} NoWinnersYet(processes: seq<Process>, worker: string)
    requires forall i | 0 <= i < |processes| :: processes[i].Started?
    ensures Winners(processes, worker) == 0
  {
    if processes != [] {
      NoWinnersYet(processes[..|processes| - 1], worker);
    }
  }

  lemma {:induction false} MoveSucceeds(q: Process, s: Shared, c: Choice, worker: string)
    requires IsCurrent(q, s.file)
    ensures var q' := Move(q, s, c).0;
            var writes := q.Ready? && q'.Written? && Pending(q) == Allocation(worker);
            && (Succeeded(q', worker) <==> Succeeded(q, worker) || writes)
            && (writes ==> !Succeeded(q, worker))
  {
  }

  lemma {:induction false} StepSucceeds(w: World, t: Turn, worker: string)
    requires AreCurrent(w)
    ensures Winners(Step(w, t).processes, worker)
         == Winners(w.processes, worker) + if OperationOf(w, t) == [Allocation(worker)] then 1 else 0
  {
    if t.process < |w.processes| {
      var q := w.processes[t.process];
      MoveSucceeds(q, w.shared, t.choice, worker);
      WinnersOfUpdate(w.processes, t.process, Move(q, w.shared, t.choice).0, worker);
    }
  }

  function Count(known: bool): nat {
    if known then 1 else 0
  }

  /**
   Every interleaving: a worker's record is there exactly when it was at the start or one process succeeded
   in adding it, and never more than one does.
   */
  lemma {:induction false} OneProcessSucceeds(w: World, turns: seq<Turn>, worker: string)
    requires IsInitial(w)
    ensures Count(IsKnown(Run(w, turns).shared.file, worker))
         == Count(IsKnown(w.shared.file, worker)) + Winners(Run(w, turns).processes, worker)
  {
    if turns == [] {
      NoWinnersYet(w.processes, worker);
    } else {
      var front, t := turns[..|turns| - 1], turns[|turns| - 1];
      OneProcessSucceeds(w, front, worker);
      RunsAreSerializable(w, front);
      StepWrites(Run(w, front), t);
      StepSucceeds(Run(w, front), t, worker);
    }
  }

  //// Worktrees

  predicate HasTree(q: Process, trees: set<string>) {
    q.Ready? && q.job.Add? ==> q.job.worker in trees
  }

  /** Every recorded worker, and every worker about to be recorded, has its worktree. */
  ghost predicate HaveTrees(w: World) {
    && (forall n | IsKnown(w.shared.file, n) :: n in w.shared.trees)
    && (forall i | 0 <= i < |w.processes| :: HasTree(w.processes[i], w.shared.trees))
  }

  lemma {:induction false} MoveKeepsTrees(q: Process, s: Shared, c: Choice)
    requires HasTree(q, s.trees)
    ensures var (q', s') := Move(q, s, c);
            s.trees <= s'.trees && HasTree(q', s'.trees)
  {
  }

  /** Every interleaving: no record is written before its worktree exists. */
  lemma {:induction false} RunsHaveTrees(w: World, turns: seq<Turn>)
    requires IsInitial(w) && HaveTrees(w)
    ensures HaveTrees(Run(w, turns))
  {
    if turns != [] {
      var front, t := turns[..|turns| - 1], turns[|turns| - 1];
      var before := Run(w, front);
      RunsHaveTrees(w, front);
      RunsAreSerializable(w, front);
      StepWrites(before, t);
      if t.process < |before.processes| {
        MoveKeepsTrees(before.processes[t.process], before.shared, t.choice);
      }
    }
  }

  //// The lock

  predicate NobodyIsKilled(turns: seq<Turn>) {
    forall i | 0 <= i < |turns| :: !turns[i].choice.killed
  }

  predicate IsHeld(w: World) {
    exists i :: 0 <= i < |w.processes| && Holds(w.processes[i])
  }

  lemma {:induction false} StepKeepsHeld(w: World, t: Turn)
    requires Excludes(w) && !t.choice.killed && (w.shared.locked <==> IsHeld(w))
    ensures Step(w, t).shared.locked <==> IsHeld(Step(w, t))
  {
    StepExcludes(w, t);
    if t.process < |w.processes| {
      var p, w' := t.process, Step(w, t);
      MoveLocks(w.processes[p], w.shared, t.choice);
      if w'.shared.locked && !Holds(w'.processes[p]) {
        var i :| 0 <= i < |w.processes| && Holds(w.processes[i]);
        assert w'.processes[i] == w.processes[i];
      }
    }
  }

  /** Without kills the lock file exists exactly while some process holds it: failures release it too. */
  lemma {:induction false} LockIsReleased(w: World, turns: seq<Turn>)
    requires IsInitial(w) && !w.shared.locked && NobodyIsKilled(turns)
    ensures Run(w, turns).shared.locked <==> IsHeld(Run(w, turns))
  {
    if turns != [] {
      var front, t := turns[..|turns| - 1], turns[|turns| - 1];
      LockIsReleased(w, front);
      RunsAreSerializable(w, front);
      StepKeepsHeld(Run(w, front), t);
    }
  }

  /** A lock file that nobody holds, left by a killed process, stops every write from then on. */
  lemma {:induction false} AbandonedLockStopsWrites(w: World, turns: seq<Turn>)
    requires w.shared.locked && !IsHeld(w)
    ensures Run(w, turns).shared == w.shared && !IsHeld(Run(w, turns))
  {
    if turns != [] {
      var front, t := turns[..|turns| - 1], turns[|turns| - 1];
      AbandonedLockStopsWrites(w, front);
      var before := Run(w, front);
      if t.process < |before.processes| {
        MoveLocks(before.processes[t.process], before.shared, t.choice);
      }
    }
  }
}
