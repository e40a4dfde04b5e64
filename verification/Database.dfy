/** The Task and Worker tables and the stored procedures over them. Each
    procedure is one atomic step; a query for one row without an order picks any. */
module Database {

  datatype TaskState = Pending | Running | Complete

  datatype TaskRow = TaskRow(worker: int, state: TaskState, pkey: int)

  datatype WorkerRow = WorkerRow(capacity: int, pkey: int)

  datatype Tables = Tables(tasks: map<int, TaskRow>, workers: map<int, WorkerRow>)

  const SUCCESS := 0
  const NOWORKER := -2

  // ---- what the procedures do to the tables ----

  /** A worker of the partition with a free slot. */
  predicate Available(t: Tables, pkey: int, worker: int) {
    worker in t.workers && t.workers[worker].pkey == pkey && t.workers[worker].capacity > 0
  }

  predicate Exhausted(t: Tables, pkey: int) {
    forall worker :: worker in t.workers ==> !Available(t, pkey, worker)
  }

  predicate MostFree(t: Tables, pkey: int, worker: int)
    requires worker in t.workers
  {
    forall w :: w in t.workers && Available(t, pkey, w) ==> t.workers[w].capacity <= t.workers[worker].capacity
  }

  function AddCapacity(t: Tables, pkey: int, worker: int, n: int): Tables {
    if worker in t.workers && t.workers[worker].pkey == pkey then
      t.(workers := t.workers[worker := t.workers[worker].(capacity := t.workers[worker].capacity + n)])
    else t
  }

  function SetState(t: Tables, pkey: int, worker: int, task: int, state: TaskState): Tables {
    if task in t.tasks && t.tasks[task].pkey == pkey && t.tasks[task].worker == worker then
      t.(tasks := t.tasks[task := t.tasks[task].(state := state)])
    else t
  }

  /** A slot of the worker is taken and its task recorded. */
  function Reserve(t: Tables, pkey: int, worker: int, task: int): Tables {
    AddCapacity(t.(tasks := t.tasks[task := TaskRow(worker, Pending, pkey)]), pkey, worker, -1)
  }

  /** WorkerUpdateTask with COMPLETE. */
  function Completed(t: Tables, pkey: int, worker: int, task: int): Tables {
    AddCapacity(SetState(t, pkey, worker, task, Complete), pkey, worker, 1)
  }

  predicate IsPending(t: Tables, pkey: int, worker: int, task: int) {
    task in t.tasks && t.tasks[task] == TaskRow(worker, Pending, pkey)
  }

  predicate NoRepeats(ids: seq<int>) {
    forall i, j :: 0 <= i < j < |ids| ==> ids[i] != ids[j]
  }

  /** What a query for at most topk pending tasks may return: pending rows, and
      all of them unless the limit cuts them off. */
  ghost predicate Selection(t: Tables, pkey: int, worker: int, topk: nat, ids: seq<int>) {
    && NoRepeats(ids) && |ids| <= topk
    && (forall i :: 0 <= i < |ids| ==> IsPending(t, pkey, worker, ids[i]))
    && (|ids| < topk ==> forall task :: IsPending(t, pkey, worker, task) ==> task in ids)
  }

  function SetRunning(t: Tables, pkey: int, worker: int, ids: seq<int>): Tables
    decreases |ids|
  {
    if ids == [] then t
    else SetState(SetRunning(t, pkey, worker, ids[..|ids| - 1]), pkey, worker, ids[|ids| - 1], Running)
  }

  /** Claiming turns exactly the selected rows from pending to running. */
  lemma {:induction false} Claimed(t: Tables, pkey: int, worker: int, ids: seq<int>)
    requires NoRepeats(ids) && forall i :: 0 <= i < |ids| ==> IsPending(t, pkey, worker, ids[i])
    ensures var u := SetRunning(t, pkey, worker, ids);
            && u.workers == t.workers && u.tasks.Keys == t.tasks.Keys
            && forall task :: task in t.tasks ==>
                 u.tasks[task] == if task in ids then TaskRow(worker, Running, pkey) else t.tasks[task]
    decreases |ids|
  {
    if ids != [] {
      var n := |ids| - 1;
      Claimed(t, pkey, worker, ids[..n]);
      assert forall task :: task in ids <==> task in ids[..n] || task == ids[n];
      assert ids[n] !in ids[..n];
    }
  }

  // ---- free slots in sum ----

  const EVERYWHERE := -1

  /** The free slots of a row, if it lies in the partition, or in any case. */
  function Free(row: WorkerRow, pkey: int): int {
    if pkey == EVERYWHERE || row.pkey == pkey then row.capacity else 0
  }

  /** The free slots of a partition, or of all of them. */
  ghost function Total(workers: map<int, WorkerRow>, pkey: int): int {
    if !(exists w :: w in workers) then 0
    else
      var w :| w in workers;
      Free(workers[w], pkey) + Total(workers - {w}, pkey)
  }

  lemma TotalAt(workers: map<int, WorkerRow>, pkey: int, w: int)
    requires w in workers
    ensures Total(workers, pkey) == Free(workers[w], pkey) + Total(workers - {w}, pkey)
    decreases |workers|
  {
    var first :| first in workers && Total(workers, pkey) == Free(workers[first], pkey) + Total(workers - {first}, pkey);
    if first != w {
      TotalAt(workers - {first}, pkey, w);
      TotalAt(workers - {w}, pkey, first);
      assert workers - {first} - {w} == workers - {w} - {first};
    }
  }

  /** Giving slots to a worker, or taking them, moves the sums by as much. */
  lemma TotalMoves(t: Tables, home: int, w: int, n: int, pkey: int)
    requires w in t.workers && t.workers[w].pkey == home
    ensures Total(AddCapacity(t, home, w, n).workers, pkey)
         == Total(t.workers, pkey) + if pkey == EVERYWHERE || pkey == home then n else 0
  {
    var u := AddCapacity(t, home, w, n);
    TotalAt(t.workers, pkey, w);
    TotalAt(u.workers, pkey, w);
    assert u.workers - {w} == t.workers - {w};
  }

  // ---- counting tasks ----

  /** The tasks of a worker in a partition, or in all of them. */
  function TasksOf(tasks: map<int, TaskRow>, pkey: int, worker: int): set<int> {
    set task | task in tasks && tasks[task].worker == worker && (pkey == EVERYWHERE || tasks[task].pkey == pkey)
  }

  /** What a query for the worker with the most tasks may return. */
  ghost predicate IsMost(tasks: map<int, TaskRow>, pkey: int, worker: int) {
    if worker == NOWORKER then forall w :: w >= 0 ==> TasksOf(tasks, pkey, w) == {}
    else
      && worker >= 0 && TasksOf(tasks, pkey, worker) != {}
      && forall w :: w >= 0 ==> |TasksOf(tasks, pkey, w)| <= |TasksOf(tasks, pkey, worker)|
  }

  // One group of the query, with its number of rows, or none.
  predicate CountIs(counts: map<int, nat>, w: int, group: set<int>) {
    if w in counts then w >= 0 && group != {} && counts[w] == |group| else w >= 0 ==> group == {}
  }

  /** The groups of the query, and how many rows each has. */
  ghost predicate Counts(counts: map<int, nat>, tasks: map<int, TaskRow>, pkey: int) {
    forall w :: CountsFor(counts, tasks, pkey, w)
  }

  ghost predicate CountsFor(counts: map<int, nat>, tasks: map<int, TaskRow>, pkey: int, w: int) {
    CountIs(counts, w, TasksOf(tasks, pkey, w))
  }

  predicate InGroup(row: TaskRow, pkey: int) {
    row.worker >= 0 && (pkey == EVERYWHERE || row.pkey == pkey)
  }

  function CountMore(counts: map<int, nat>, row: TaskRow, pkey: int): map<int, nat> {
    if InGroup(row, pkey) then counts[row.worker := 1 + if row.worker in counts then counts[row.worker] else 0] else counts
  }

  lemma NoneCounted(pkey: int)
    ensures Counts(map[], map[], pkey)
  {
  }

  // The rows of the table but for those still to be seen.
  predicate ButFor(seen: map<int, TaskRow>, tasks: map<int, TaskRow>, todo: set<int>) {
    seen.Keys == tasks.Keys - todo && forall task :: task in seen ==> seen[task] == tasks[task]
  }

  lemma NoneSeen(tasks: map<int, TaskRow>)
    ensures ButFor(map[], tasks, tasks.Keys)
  {
  }

  lemma OneMore(seen: map<int, TaskRow>, tasks: map<int, TaskRow>, todo: set<int>, task: int)
    requires ButFor(seen, tasks, todo) && task in todo && task in tasks
    ensures task !in seen && ButFor(seen[task := tasks[task]], tasks, todo - {task})
  {
  }

  lemma CountMoreOf(counts: map<int, nat>, row: TaskRow, pkey: int)
    ensures CountMore(counts, row, pkey) ==
            if row.worker >= 0 && (pkey == EVERYWHERE || row.pkey == pkey)
            then counts[row.worker := 1 + if row.worker in counts then counts[row.worker] else 0] else counts
  {
  }

  lemma SameGroups(counts: map<int, nat>, seen: map<int, TaskRow>, tasks: map<int, TaskRow>, pkey: int)
    requires Counts(counts, seen, pkey) && ButFor(seen, tasks, {})
    ensures Counts(counts, tasks, pkey)
  {
    forall w
      ensures CountsFor(counts, tasks, pkey, w)
    {
      assert CountsFor(counts, seen, pkey, w);
      assert TasksOf(seen, pkey, w) == TasksOf(tasks, pkey, w) by {
        assert forall task :: task in TasksOf(seen, pkey, w) <==> task in TasksOf(tasks, pkey, w);
      }
    }
  }

  lemma GroupGrows(tasks: map<int, TaskRow>, pkey: int, task: int, row: TaskRow, w: int)
    requires task !in tasks && w >= 0
    ensures task !in TasksOf(tasks, pkey, w)
    ensures TasksOf(tasks[task := row], pkey, w) ==
            TasksOf(tasks, pkey, w) + if w == row.worker && InGroup(row, pkey) then {task} else {}
  {
  }

  lemma CountMoreIs(counts: map<int, nat>, row: TaskRow, pkey: int, w: int, group: set<int>, task: int)
    requires CountIs(counts, w, group) && task !in group
    ensures CountIs(CountMore(counts, row, pkey), w, group + if w == row.worker && InGroup(row, pkey) then {task} else {})
  {
  }

  /** One row more changes only its own group. */
  lemma CountedIn(counts: map<int, nat>, tasks: map<int, TaskRow>, pkey: int, task: int, row: TaskRow)
    requires task !in tasks && Counts(counts, tasks, pkey)
    ensures Counts(CountMore(counts, row, pkey), tasks[task := row], pkey)
  {
    var now, more := CountMore(counts, row, pkey), tasks[task := row];
    forall w
      ensures CountsFor(now, more, pkey, w)
    {
      assert CountsFor(counts, tasks, pkey, w);
      if w >= 0 {
        GroupGrows(tasks, pkey, task, row, w);
        CountMoreIs(counts, row, pkey, w, TasksOf(tasks, pkey, w), task);
      }
    }
  }

  /** A worker with the greatest count is one with the most tasks. */
  lemma MostCounted(counts: map<int, nat>, tasks: map<int, TaskRow>, pkey: int, worker: int)
    requires Counts(counts, tasks, pkey)
    requires worker == NOWORKER || worker in counts
    requires forall w :: w in counts ==> worker in counts && counts[w] <= counts[worker]
    ensures IsMost(tasks, pkey, worker)
  {
    hide TasksOf;
    assert CountsFor(counts, tasks, pkey, worker);
    forall w | w >= 0
      ensures w in counts || TasksOf(tasks, pkey, w) == {}
      ensures w in counts ==> counts[w] == |TasksOf(tasks, pkey, w)|
    {
      assert CountsFor(counts, tasks, pkey, w);
    }
  }

  lemma CountedAreWorkers(counts: map<int, nat>, tasks: map<int, TaskRow>, pkey: int)
    requires Counts(counts, tasks, pkey)
    ensures forall w :: w in counts ==> w >= 0
  {
    hide TasksOf;
    forall w | w in counts
      ensures w >= 0
    {
      assert CountsFor(counts, tasks, pkey, w);
    }
  }

  // ---- the procedures ----

  class Db {
    var tasks: map<int, TaskRow>
    var workers: map<int, WorkerRow>

    ghost function View(): Tables
      reads this
    {
      Tables(tasks, workers)
    }

    constructor ()
      ensures View() == Tables(map[], map[])
    {
      tasks, workers := map[], map[];
    }

    method TruncateWorkerTable()
      modifies this
      ensures View() == old(View()).(workers := map[])
    {
      workers := map[];
    }

    method TruncateTaskTable()
      modifies this
      ensures View() == old(View()).(tasks := map[])
    {
      tasks := map[];
    }

    method InsertWorker(worker: int, capacity: int, pkey: int)
      requires worker !in workers
      modifies this
      ensures View() == old(View()).(workers := old(workers)[worker := WorkerRow(capacity, pkey)])
    {
      workers := workers[worker := WorkerRow(capacity, pkey)];
    }

    method InsertTask(task: int, worker: int, state: TaskState, pkey: int)
      requires task !in tasks
      modifies this
      ensures View() == old(View()).(tasks := old(tasks)[task := TaskRow(worker, state, pkey)])
    {
      tasks := tasks[task := TaskRow(worker, state, pkey)];
    }

    // Any one worker of the partition that has a free slot, with its slots.
    method PickWorker(pkey: int) returns (found: bool, worker: int, capacity: int)
      ensures found ==> Available(View(), pkey, worker) && capacity == workers[worker].capacity
      ensures !found ==> Exhausted(View(), pkey)
    {
      worker, capacity := -1, 0;
      found := exists w :: w in workers && workers[w].pkey == pkey && workers[w].capacity > 0;
      if found {
        worker :| worker in workers && workers[worker].pkey == pkey && workers[worker].capacity > 0;
        capacity := workers[worker].capacity;
      } else {
        assert forall w :: w in workers ==> !Available(View(), pkey, w);
      }
    }

    // Sets the slots of the worker, if it has a row in the partition.
    method UpdateCapacity(capacity: int, pkey: int, worker: int)
      modifies this`workers
      ensures View() == if worker in old(workers) && old(workers)[worker].pkey == pkey
                        then AddCapacity(old(View()), pkey, worker, capacity - old(workers)[worker].capacity) else old(View())
    {
      if worker in workers && workers[worker].pkey == pkey {
        workers := workers[worker := workers[worker].(capacity := capacity)];
      }
    }

    // Sets the state of the task, if it has a row for the worker in the partition.
    method UpdateTask(state: TaskState, pkey: int, task: int, worker: int)
      modifies this`tasks
      ensures View() == SetState(old(View()), pkey, worker, task, state)
    {
      if task in tasks && tasks[task].pkey == pkey && tasks[task].worker == worker {
        tasks := tasks[task := tasks[task].(state := state)];
      }
    }

    /** One slot of some worker of the partition is taken, or there is none. */
    method SelectWorker(pkey: int) returns (worker: int)
      requires -1 !in workers
      modifies this
      ensures worker == -1 ==> Exhausted(old(View()), pkey) && View() == old(View())
      ensures worker != -1 ==> Available(old(View()), pkey, worker) && View() == AddCapacity(old(View()), pkey, worker, -1)
    {
      var found, w, capacity := PickWorker(pkey);
      if !found {
        return -1;
      }
      UpdateCapacity(capacity - 1, pkey, w);
      return w;
    }

    method SelectSinglePartitionedTaskWorker(pkey: int, task: int) returns (status: int)
      requires task !in tasks
      modifies this
      ensures status == SUCCESS || status == NOWORKER
      ensures status == NOWORKER ==> Exhausted(old(View()), pkey) && View() == old(View())
      ensures status == SUCCESS ==>
                exists worker :: Available(old(View()), pkey, worker) && View() == Reserve(old(View()), pkey, worker, task)
    {
      var found, w, capacity := PickWorker(pkey);
      if !found {
        return NOWORKER;
      }
      InsertTask(task, w, Pending, pkey);
      UpdateCapacity(capacity - 1, pkey, w);
      return SUCCESS;
    }

    // Of the workers of the partition with a free slot, one with the most of them.
    method PickLargest(pkey: int) returns (worker: int)
      requires -1 !in workers
      ensures worker == -1 ==> Exhausted(View(), pkey)
      ensures worker != -1 ==> Available(View(), pkey, worker) && MostFree(View(), pkey, worker)
    {
      var rest := set w | w in workers && workers[w].pkey == pkey && workers[w].capacity > 0;
      worker := -1;
      while exists w :: w in rest
        invariant forall w :: w in rest ==> Available(View(), pkey, w)
        invariant worker != -1 ==> Available(View(), pkey, worker)
        invariant forall w :: Available(View(), pkey, w) ==>
                    w in rest || (worker != -1 && workers[w].capacity <= workers[worker].capacity)
        decreases |rest|
      {
        var w :| w in rest;
        if worker == -1 || workers[w].capacity > workers[worker].capacity {
          worker := w;
        }
        rest := rest - {w};
      }
    }

    /** The same, but for a worker of the partition with the most free slots. */
    method SelectOrderedWorker(pkey: int, task: int) returns (worker: int)
      requires task !in tasks && -1 !in workers
      modifies this
      ensures worker == -1 ==> Exhausted(old(View()), pkey) && View() == old(View())
      ensures worker != -1 ==>
                && Available(old(View()), pkey, worker) && MostFree(old(View()), pkey, worker)
                && View() == Reserve(old(View()), pkey, worker, task)
    {
      worker := PickLargest(pkey);
      if worker == -1 {
        return;
      }
      var capacity := workers[worker].capacity;
      InsertTask(task, worker, Pending, pkey);
      UpdateCapacity(capacity - 1, pkey, worker);
    }

    // Up to topk pending tasks of the worker in the partition, in no set order.
    method SelectPendingTasks(pkey: int, worker: int, topk: nat) returns (ids: seq<int>)
      ensures Selection(View(), pkey, worker, topk, ids)
    {
      var rest := set task | task in tasks && tasks[task] == TaskRow(worker, Pending, pkey);
      ghost var all := rest;
      ids := [];
      while |ids| < topk && exists task :: task in rest
        invariant |ids| <= topk && NoRepeats(ids) && rest <= all
        invariant forall i :: 0 <= i < |ids| ==> ids[i] in all && ids[i] !in rest
        invariant forall task :: task in all ==> task in ids || task in rest
        decreases |rest|
      {
        var task :| task in rest;
        ids := ids + [task];
        rest := rest - {task};
      }
    }

    method WorkerSelectTask(pkey: int, worker: int, topk: nat) returns (ids: seq<int>)
      modifies this
      ensures Selection(old(View()), pkey, worker, topk, ids)
      ensures View() == SetRunning(old(View()), pkey, worker, ids)
    {
      ids := SelectPendingTasks(pkey, worker, topk);
      var i := 0;
      while i < |ids|
        invariant 0 <= i <= |ids|
        invariant View() == SetRunning(old(View()), pkey, worker, ids[..i])
      {
        UpdateTask(Running, pkey, ids[i], worker);
        i := i + 1;
        assert ids[..i][..i - 1] == ids[..i - 1];
      }
      assert ids[..|ids|] == ids;
    }

    method WorkerUpdateTask(pkey: int, worker: int, task: int, state: TaskState) returns (status: int)
      modifies this
      ensures status == SUCCESS
      ensures View() == if state == Complete then Completed(old(View()), pkey, worker, task)
                        else SetState(old(View()), pkey, worker, task, state)
    {
      UpdateTask(state, pkey, task, worker);
      if state == Complete && worker in workers && workers[worker].pkey == pkey {
        workers := workers[worker := workers[worker].(capacity := workers[worker].capacity + 1)];
      }
      return SUCCESS;
    }

    // How many tasks each worker has; tasks without a worker are left out.
    method CountTasks(pkey: int) returns (counts: map<int, nat>)
      ensures Counts(counts, tasks, pkey)
    {
      hide Counts, ButFor, CountMore;
      counts := map[];
      NoneCounted(pkey);
      NoneSeen(tasks);
      var todo := tasks.Keys;
      ghost var seen: map<int, TaskRow> := map[];
      while exists task :: task in todo
        invariant todo <= tasks.Keys && ButFor(seen, tasks, todo) && Counts(counts, seen, pkey)
        decreases |todo|
      {
        var task :| task in todo;
        var row := tasks[task];
        OneMore(seen, tasks, todo, task);
        CountedIn(counts, seen, pkey, task, row);
        CountMoreOf(counts, row, pkey);
        if row.worker >= 0 && (pkey == EVERYWHERE || row.pkey == pkey) {
          counts := counts[row.worker := 1 + if row.worker in counts then counts[row.worker] else 0];
        }
        seen := seen[task := row];
        todo := todo - {task};
      }
      assert todo == {};
      SameGroups(counts, seen, tasks, pkey);
    }

    /** ScanPartitionedTaskWorker, and ScanTaskWorker for all partitions: the worker
        with the most tasks there. */
    method ScanTaskWorker(pkey: int) returns (worker: int)
      ensures IsMost(tasks, pkey, worker)
    {
      hide Counts, IsMost;
      var counts := CountTasks(pkey);
      worker := NOWORKER;
      CountedAreWorkers(counts, tasks, pkey);
      var groups := counts.Keys;
      while exists w :: w in groups
        invariant forall w :: w in groups ==> w in counts
        invariant worker == NOWORKER || worker in counts
        invariant forall w :: w in counts ==> w in groups || (worker in counts && counts[w] <= counts[worker])
        decreases |groups|
      {
        var w :| w in groups;
        if worker == NOWORKER || counts[w] > counts[worker] {
          worker := w;
        }
        groups := groups - {w};
      }
      MostCounted(counts, tasks, pkey, worker);
    }
  }
}
