/** PartitionedScanTask: how setup spreads the tasks, and why the first probe of
    selectMostTaskWorker always finds its partition's busiest worker. */
module ScanPlacement {
  import opened Database
  import opened Schedulers
  import Probing

  /** Task i for worker i mod W, which lies in partition (i mod W) mod P. */
  function Spread(tasks: nat, workers: nat, partitions: nat): map<int, TaskRow>
    requires workers > 0 && partitions > 0
  {
    map i | 0 <= i < tasks :: TaskRow(i % workers, Pending, (i % workers) % partitions)
  }

  lemma SpreadMore(tasks: nat, workers: nat, partitions: nat)
    requires workers > 0 && partitions > 0
    ensures tasks !in Spread(tasks, workers, partitions)
    ensures Spread(tasks, workers, partitions)[tasks := TaskRow(tasks % workers, Pending, (tasks % workers) % partitions)]
         == Spread(tasks + 1, workers, partitions)
  {
  }

  /** The share of worker w: the quotient, and one more for the first few. */
  function Share(tasks: nat, workers: nat, w: nat): nat
    requires workers > 0
  {
    tasks / workers + if w < tasks % workers then 1 else 0
  }

  lemma DivStep(t: nat, n: nat)
    requires n > 0
    ensures if t % n == n - 1 then (t + 1) / n == t / n + 1 && (t + 1) % n == 0
            else (t + 1) / n == t / n && (t + 1) % n == t % n + 1
  {
    var q, r := t / n, t % n;
    assert t == n * q + r;
    if r == n - 1 {
      DivIs(t + 1, n, q + 1, 0);
    } else {
      DivIs(t + 1, n, q, r + 1);
    }
  }

  lemma DivIs(x: nat, n: nat, q: nat, r: nat)
    requires 0 <= r < n && x == n * q + r
    ensures x / n == q && x % n == r
  {
    Probing.TimesIs(n, q);
    Probing.SameRemainder(x, r, n);
    ModBelow(r, n);
    assert n * (x / n) == n * q;
    assert x / n - q == 0 by {
      assert n * (x / n - q) == n * (x / n) - n * q;
      Probing.SmallMultiple(n, x / n - q);
    }
  }

  /** Every worker owns exactly its share, and all of it in one partition. */
  lemma {:induction false} ShareIs(tasks: nat, workers: nat, partitions: nat, w: nat)
    requires partitions > 0 && w < workers
    ensures |TasksOf(Spread(tasks, workers, partitions), EVERYWHERE, w)| == Share(tasks, workers, w)
    decreases tasks
  {
    if tasks == 0 {
      assert TasksOf(Spread(0, workers, partitions), EVERYWHERE, w) == {};
      DivIs(0, workers, 0, 0);
    } else {
      var t := tasks - 1;
      ShareIs(t, workers, partitions, w);
      SpreadMore(t, workers, partitions);
      DivStep(t, workers);
      OwnedMore(Spread(t, workers, partitions), t, TaskRow(t % workers, Pending, (t % workers) % partitions), w);
      ModBelow(t, workers);
    }
  }

  lemma OwnedMore(tasks: map<int, TaskRow>, task: int, row: TaskRow, w: int)
    requires task !in tasks
    ensures |TasksOf(tasks[task := row], EVERYWHERE, w)| == |TasksOf(tasks, EVERYWHERE, w)| + if row.worker == w then 1 else 0
  {
    assert TasksOf(tasks[task := row], EVERYWHERE, w) == TasksOf(tasks, EVERYWHERE, w) + if row.worker == w then {task} else {};
  }

  lemma OnePartition(tasks: nat, workers: nat, partitions: nat, p: nat, w: nat)
    requires workers > 0 && partitions > 0
    ensures TasksOf(Spread(tasks, workers, partitions), p, w)
         == if w % partitions == p then TasksOf(Spread(tasks, workers, partitions), EVERYWHERE, w) else {}
  {
  }

  lemma NoOneElse(tasks: nat, workers: nat, partitions: nat, p: int, w: int)
    requires workers > 0 && partitions > 0 && !(0 <= w < workers)
    ensures TasksOf(Spread(tasks, workers, partitions), p, w) == {}
  {
    forall i: nat
      ensures i % workers != w
    {
      ModBelow(i, workers);
    }
  }

  /** In the uniform setup every active partition has tasks, its first worker has
      the most of them, and so whatever the argmax query returns there has as many. */
  lemma FirstProbeFinds(tasks: nat, workers: nat, partitions: nat, p: nat, found: int)
    requires partitions > 0 && p < Min(partitions, Min(tasks, workers))
    requires IsMost(Spread(tasks, workers, partitions), p, found)
    ensures 0 <= found < workers && found % partitions == p
    ensures |TasksOf(Spread(tasks, workers, partitions), EVERYWHERE, found)| == Share(tasks, workers, p) > 0
    ensures Share(tasks, workers, found) == Share(tasks, workers, p)
  {
    var rows := Spread(tasks, workers, partitions);
    ModBelow(p, partitions);
    OnePartition(tasks, workers, partitions, p, p);
    ShareIs(tasks, workers, partitions, p);
    SharePositive(tasks, workers, p);
    assert TasksOf(rows, p, p) != {};
    if 0 <= found {
      OnePartition(tasks, workers, partitions, p, found);
      if found >= workers {
        NoOneElse(tasks, workers, partitions, p, found);
      } else {
        ShareIs(tasks, workers, partitions, found);
        ModBelow(found, partitions);
      }
    }
  }

  lemma SharePositive(tasks: nat, workers: nat, w: nat)
    requires w < Min(tasks, workers)
    ensures Share(tasks, workers, w) > 0
  {
    if tasks < workers {
      DivIs(tasks, workers, 0, tasks);
    }
  }

  /** PartitionedScanTask. */
  class PartitionedScanTask {
    const db: Db
    const partitions: nat
    const numTasks: nat
    const numWorkers: nat

    constructor (db: Db, partitions: nat, numTasks: nat, numWorkers: nat)
      ensures this.db == db && this.partitions == partitions && this.numTasks == numTasks && this.numWorkers == numWorkers
    {
      this.db, this.partitions, this.numTasks, this.numWorkers := db, partitions, numTasks, numWorkers;
    }

    function Active(): int { Min(partitions, Min(numTasks, numWorkers)) }

    method Setup()
      requires partitions > 0 && numWorkers > 0
      modifies db
      ensures db.View() == old(db.View()).(tasks := Spread(numTasks, numWorkers, partitions))
    {
      db.TruncateTaskTable();
      var i := 0;
      while i < numTasks
        invariant 0 <= i <= numTasks
        invariant db.View() == old(db.View()).(tasks := Spread(i, numWorkers, partitions))
      {
        SpreadMore(i, numWorkers, partitions);
        var workerID := i % numWorkers;
        db.InsertTask(i, workerID, Pending, workerID % partitions);
        i := i + 1;
      }
    }

    /** selectMostTaskWorker, with start for the random first partition and multi
        for the coin. */
    method SelectMostTaskWorker(start: nat, multi: bool) returns (worker: int, probes: nat)
      requires start < Active()
      ensures worker == NOWORKER ==> forall w :: w >= 0 ==> TasksOf(db.tasks, EVERYWHERE, w) == {}
      ensures worker != NOWORKER ==> exists p :: IsMost(db.tasks, p, worker)
      ensures !multi && (exists w :: w >= 0 && TasksOf(db.tasks, start, w) != {}) ==> probes == 1 && IsMost(db.tasks, start, worker)
      ensures multi ==> IsMost(db.tasks, EVERYWHERE, worker)
    {
      var n := Active();
      var pkey := start;
      probes := 0;
      if !multi {
        var count := 1;
        while count <= n
          invariant 1 <= count <= n + 1 && 0 <= pkey < n && probes == count - 1
          invariant count == 1 ==> pkey == start
          invariant count > 1 ==> forall w :: w >= 0 ==> TasksOf(db.tasks, start, w) == {}
        {
          worker := db.ScanTaskWorker(pkey);
          probes := probes + 1;
          if worker >= 0 {
            return;
          }
          ModBelow(count + pkey, n);
          pkey := (count + pkey) % n;
          count := count + 1;
        }
      }
      worker := db.ScanTaskWorker(EVERYWHERE);
      probes := probes + 1;
    }
  }
}
