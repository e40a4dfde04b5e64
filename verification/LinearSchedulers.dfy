/** The schedulers that probe the partitions one after the other, and the balance
    that an ordered selection keeps. */
module LinearSchedulers {
  import opened Database
  import opened Schedulers
  import Probing

  // ---- linear probing ----

  /** The probe of this count. */
  function LinearAt(offset: nat, count: nat, n: nat): nat
    requires n > 0
  {
    (count + offset) % n
  }

  lemma LinearProbe(offset: nat, n: nat, p: nat) returns (count: nat)
    requires offset < n && p < n
    ensures count < n && LinearAt(offset, count, n) == p
  {
    count := if offset <= p then p - offset else p - offset + n;
  }

  /** The probes go up by one from the offset, with partition 0 after the last. */
  lemma LinearRound(offset: nat, count: nat, n: nat)
    requires offset < n && count < n
    ensures LinearAt(offset, count, n) == if offset + count < n then offset + count else offset + count - n
  {
    hide Probing.Multiple;
    var x := offset + count;
    if x < n {
      ModBelow(x, n);
    } else {
      ModBelow(x - n, n);
      Probing.MultipleZero(n);
      Probing.SameRemainder(x, x - n, n);
    }
  }

  /** Going round the partitions from the offset, q comes before p. */
  predicate Before(offset: nat, q: nat, p: nat) {
    if offset <= p then offset <= q < p else offset <= q || q < p
  }

  /** p is the first partition with a free slot, going round from the offset. */
  predicate FirstFrom(t: Tables, offset: nat, n: nat, p: int) {
    && 0 <= p < n && !Exhausted(t, p)
    && forall q: nat :: q < n && Before(offset, q, p) ==> Exhausted(t, q)
  }

  lemma FirstProbe(t: Tables, offset: nat, count: nat, n: nat)
    requires offset < n && count < n && !Exhausted(t, LinearAt(offset, count, n))
    requires forall i :: 0 <= i < count ==> Exhausted(t, LinearAt(offset, i, n))
    ensures FirstFrom(t, offset, n, LinearAt(offset, count, n))
  {
    hide Exhausted, LinearAt;
    LinearRound(offset, count, n);
    forall q: nat | q < n && Before(offset, q, LinearAt(offset, count, n))
      ensures Exhausted(t, q)
    {
      var i := LinearProbe(offset, n, q);
      LinearRound(offset, i, n);
    }
  }

  /** No partition is probed twice. */
  lemma LinearOnce(offset: nat, n: nat, i: nat, j: nat)
    requires offset < n && i < j < n
    ensures LinearAt(offset, i, n) != LinearAt(offset, j, n)
  {
    hide Probing.Multiple;
    Probing.SameRemainder(j + offset, i + offset, n);
    if Probing.Multiple(j - i, n) {
      Probing.MultipleBetween(j - i, n);
    }
  }

  /** PartitionedFIFOScheduler. */
  class PartitionedFIFOScheduler {
    const db: Db
    const workerPartitions: nat
    const numWorkers: nat
    const workerCapacity: nat

    constructor (db: Db, workerPartitions: nat, numWorkers: nat, workerCapacity: nat)
      ensures this.db == db && this.workerPartitions == workerPartitions && this.numWorkers == numWorkers
      ensures this.workerCapacity == workerCapacity
    {
      this.db, this.workerPartitions, this.numWorkers, this.workerCapacity := db, workerPartitions, numWorkers, workerCapacity;
    }

    function Active(): int { Min(workerPartitions, numWorkers) }

    /** setup clears the Worker table only: this scheduler records no tasks. */
    method Setup()
      requires workerPartitions > 0
      modifies db
      ensures db.View() == old(db.View()).(workers := Placement(numWorkers, workerPartitions, workerCapacity))
    {
      db.TruncateWorkerTable();
      var i := 0;
      while i < numWorkers
        invariant 0 <= i <= numWorkers
        invariant db.View() == old(db.View()).(workers := Placement(i, workerPartitions, workerCapacity))
      {
        PlacementMore(i, workerPartitions, workerCapacity);
        db.InsertWorker(i, workerCapacity, i % workerPartitions);
        i := i + 1;
      }
    }

    /** selectWorker of the FIFO scheduler: -1 exactly when no capacity is left
        anywhere, and otherwise one slot less, in the first partition with one. */
    method SelectWorker(offset: nat) returns (worker: int)
      requires offset < Active() && InActive(db.View(), Active()) && -1 !in db.workers
      modifies db
      ensures worker == -1 <==> !HasFree(old(db.View()))
      ensures worker == -1 ==> db.View() == old(db.View())
      ensures worker != -1 ==>
                && worker in old(db.workers) && old(db.workers)[worker].capacity > 0
                && FirstFrom(old(db.View()), offset, Active(), old(db.workers)[worker].pkey)
                && db.View() == AddCapacity(old(db.View()), old(db.workers)[worker].pkey, worker, -1)
                && Total(db.workers, EVERYWHERE) == Total(old(db.workers), EVERYWHERE) - 1
    {
      var n := Active();
      ghost var t := db.View();
      var count := 0;
      while count < n
        invariant 0 <= count <= n && db.View() == t
        invariant forall i :: 0 <= i < count ==> Exhausted(t, LinearAt(offset, i, n))
      {
        var partitionNum := (count + offset) % n;
        assert partitionNum == LinearAt(offset, count, n);
        worker := db.SelectWorker(partitionNum);
        if worker != -1 {
          TotalMoves(t, partitionNum, worker, -1, EVERYWHERE);
          FirstProbe(t, offset, count, n);
          return;
        }
        count := count + 1;
      }
      AllExhausted(t, n, offset);
      return -1;
    }
  }

  /** PartitionedLocalFIFOScheduler. */
  class PartitionedLocalFIFOScheduler {
    const db: Db
    const workerPartitions: nat
    const numWorkers: nat
    const workerCapacity: nat
    var taskindex: nat

    constructor (db: Db, workerPartitions: nat, numWorkers: nat, workerCapacity: nat)
      ensures this.db == db && this.workerPartitions == workerPartitions && this.numWorkers == numWorkers
      ensures this.workerCapacity == workerCapacity && taskindex == 0
    {
      taskindex := 0;
      this.db, this.workerPartitions, this.numWorkers, this.workerCapacity := db, workerPartitions, numWorkers, workerCapacity;
    }

    function Active(): int { Min(workerPartitions, numWorkers) }

    method Setup()
      requires workerPartitions > 0
      modifies db
      ensures db.View() == SetupTables(numWorkers, workerPartitions, workerCapacity)
    {
      db.TruncateWorkerTable();
      db.TruncateTaskTable();
      var i := 0;
      while i < numWorkers
        invariant 0 <= i <= numWorkers
        invariant db.View() == SetupTables(i, workerPartitions, workerCapacity)
      {
        PlacementMore(i, workerPartitions, workerCapacity);
        db.InsertWorker(i, workerCapacity, i % workerPartitions);
        i := i + 1;
      }
    }

    /** selectWorker of the local FIFO scheduler, over the ordered selection. */
    method SelectOrdered(task: int, offset: nat) returns (worker: int)
      requires offset < Active() && InActive(db.View(), Active()) && -1 !in db.workers && task !in db.tasks
      modifies db
      ensures worker == -1 <==> !HasFree(old(db.View()))
      ensures worker == -1 ==> db.View() == old(db.View())
      ensures worker != -1 ==>
                && worker in old(db.workers)
                && FirstFrom(old(db.View()), offset, Active(), old(db.workers)[worker].pkey)
                && TakesLargest(old(db.View()), db.View(), old(db.workers)[worker].pkey, worker, task)
    {
      var n := Active();
      ghost var t := db.View();
      var count := 0;
      while count < n
        invariant 0 <= count <= n && db.View() == t
        invariant forall i :: 0 <= i < count ==> Exhausted(t, LinearAt(offset, i, n))
      {
        var partitionNum := (count + offset) % n;
        assert partitionNum == LinearAt(offset, count, n);
        worker := db.SelectOrderedWorker(partitionNum, task);
        if worker != -1 {
          FirstProbe(t, offset, count, n);
          return;
        }
        count := count + 1;
      }
      AllExhausted(t, n, offset);
      return -1;
    }
  }

  lemma AllExhausted(t: Tables, n: nat, offset: nat)
    requires offset < n && InActive(t, n) && forall i :: 0 <= i < n ==> Exhausted(t, LinearAt(offset, i, n))
    ensures !HasFree(t)
  {
    FreeIff(t, n);
    forall p: nat | p < n
      ensures Exhausted(t, p)
    {
      var count := LinearProbe(offset, n, p);
      assert Exhausted(t, LinearAt(offset, count, n));
    }
  }

  // ---- balance ----

  /** One successful selection of a worker of its partition with most free slots. */
  predicate TakesLargest(t: Tables, u: Tables, pkey: int, worker: int, task: int) {
    && Available(t, pkey, worker) && MostFree(t, pkey, worker) && task !in t.tasks
    && u == Reserve(t, pkey, worker, task)
  }

  datatype Pick = Pick(pkey: int, worker: int, task: int)

  /** Any run of successful ordered selections, by any number of clients. */
  ghost predicate OrderedRun(t: Tables, picks: seq<Pick>, u: Tables)
    decreases |picks|
  {
    if picks == [] then u == t
    else
      var s := picks[0];
      TakesLargest(t, Reserve(t, s.pkey, s.worker, s.task), s.pkey, s.worker, s.task)
      && OrderedRun(Reserve(t, s.pkey, s.worker, s.task), picks[1..], u)
  }

  /** No worker is more than one slot ahead of another in its partition. */
  ghost predicate Balanced(t: Tables) {
    && (forall w :: w in t.workers ==> t.workers[w].capacity >= 0)
    && forall v, w :: v in t.workers && w in t.workers && t.workers[v].pkey == t.workers[w].pkey ==>
         t.workers[v].capacity - t.workers[w].capacity <= 1
  }

  function TasksIn(tasks: map<int, TaskRow>, pkey: int): set<int> {
    set task | task in tasks && tasks[task].pkey == pkey
  }

  lemma OrderedKeepsBalance(t: Tables, u: Tables, pkey: int, worker: int, task: int)
    requires Balanced(t) && TakesLargest(t, u, pkey, worker, task)
    ensures Balanced(u)
  {
    forall v, w | v in u.workers && w in u.workers && u.workers[v].pkey == u.workers[w].pkey
      ensures u.workers[v].capacity - u.workers[w].capacity <= 1
    {
      if w == worker && v != worker && t.workers[v].capacity > 0 {
        assert Available(t, pkey, v);
      }
    }
  }

  lemma OrderedCounts(t: Tables, u: Tables, pkey: int, worker: int, task: int, p: int)
    requires TakesLargest(t, u, pkey, worker, task) && p != EVERYWHERE
    ensures Total(u.workers, p) + |TasksIn(u.tasks, p)| == Total(t.workers, p) + |TasksIn(t.tasks, p)|
  {
    var row := TaskRow(worker, Pending, pkey);
    TotalMoves(t.(tasks := t.tasks[task := row]), pkey, worker, -1, p);
    TasksGrow(t.tasks, task, row, p);
    hide TasksIn;
  }

  lemma TasksGrow(tasks: map<int, TaskRow>, task: int, row: TaskRow, p: int)
    requires task !in tasks
    ensures |TasksIn(tasks[task := row], p)| == |TasksIn(tasks, p)| + if row.pkey == p then 1 else 0
  {
    assert TasksIn(tasks[task := row], p) == TasksIn(tasks, p) + if row.pkey == p then {task} else {};
  }

  /** Over every run, selections stay balanced, and the slots a partition has
      given away are the task rows inserted there. */
  lemma {:induction false} RunBalanced(t: Tables, picks: seq<Pick>, u: Tables, p: int)
    requires Balanced(t) && OrderedRun(t, picks, u) && p != EVERYWHERE
    ensures Balanced(u)
    ensures Total(t.workers, p) - Total(u.workers, p) == |TasksIn(u.tasks, p)| - |TasksIn(t.tasks, p)|
    decreases |picks|
  {
    if picks != [] {
      var s := picks[0];
      var next := Reserve(t, s.pkey, s.worker, s.task);
      OrderedKeepsBalance(t, next, s.pkey, s.worker, s.task);
      OrderedCounts(t, next, s.pkey, s.worker, s.task, p);
      RunBalanced(next, picks[1..], u, p);
    }
  }

  /** In particular from the uniform setup. */
  lemma SetupBalanced(workers: nat, partitions: nat, capacity: nat, picks: seq<Pick>, u: Tables, p: nat)
    requires partitions > 0 && OrderedRun(SetupTables(workers, partitions, capacity), picks, u)
    ensures Balanced(u)
    ensures Total(Placement(workers, partitions, capacity), p) - Total(u.workers, p) == |TasksIn(u.tasks, p)|
  {
    var t := SetupTables(workers, partitions, capacity);
    assert TasksIn(t.tasks, p) == {};
    RunBalanced(t, picks, u, p);
  }
}
