/** The probing schedulers: where setup places the workers, and what calls of
    schedule find when they do not overlap. */
module Schedulers {
  import opened Database
  import Probing

  function Min(a: int, b: int): int { if a < b then a else b }

  /** Worker i in partition i mod P, all with the same capacity. */
  function Placement(workers: nat, partitions: nat, capacity: int): map<int, WorkerRow>
    requires partitions > 0
  {
    map i | 0 <= i < workers :: WorkerRow(capacity, i % partitions)
  }

  lemma PlacementMore(workers: nat, partitions: nat, capacity: int)
    requires partitions > 0
    ensures workers !in Placement(workers, partitions, capacity)
    ensures Placement(workers, partitions, capacity)[workers := WorkerRow(capacity, workers % partitions)]
         == Placement(workers + 1, partitions, capacity)
  {
  }

  /** Every worker lies in an active partition. */
  ghost predicate InActive(t: Tables, n: nat) {
    forall w :: w in t.workers ==> 0 <= t.workers[w].pkey < n
  }

  lemma PlacementActive(tasks: map<int, TaskRow>, workers: nat, partitions: nat, capacity: int)
    requires partitions > 0
    ensures InActive(Tables(tasks, Placement(workers, partitions, capacity)), Min(partitions, workers))
  {
    forall w | 0 <= w < workers
      ensures 0 <= w % partitions < Min(partitions, workers)
    {
      ModBelow(w, partitions);
    }
  }

  lemma ModBelow(w: nat, n: nat)
    requires n > 0
    ensures 0 <= w % n < n && w % n <= w && (w < n ==> w % n == w)
  {
  }

  /** Some worker has a free slot. */
  ghost predicate HasFree(t: Tables) {
    exists w :: w in t.workers && t.workers[w].capacity > 0
  }

  lemma FreeIff(t: Tables, n: nat)
    requires InActive(t, n)
    ensures HasFree(t) <==> exists p: nat :: p < n && !Exhausted(t, p)
  {
    if HasFree(t) {
      var w :| w in t.workers && t.workers[w].capacity > 0;
      assert Available(t, t.workers[w].pkey, w);
      assert !Exhausted(t, t.workers[w].pkey);
    }
    if p: nat :| p < n && !Exhausted(t, p) {
      var w :| w in t.workers && Available(t, p, w);
    }
  }

  // Where the previous probe leaves off.
  lemma NextProbe(start: nat, sweep: nat, k: nat, n: nat)
    requires n > 0
    ensures (Probing.ProbeAt(start, sweep, k, n) + (k + 1)) % n == Probing.ProbeAt(start, sweep, k + 1, n)
    ensures Probing.ProbeAt(start, sweep, n, n) == Probing.ProbeAt(start, sweep + 1, 0, n)
  {
    var x := start + sweep * Probing.Tri(n) + Probing.Tri(k);
    AddAfterMod(x, k + 1, n);
    assert (sweep + 1) * Probing.Tri(n) == sweep * Probing.Tri(n) + Probing.Tri(n);
  }

  lemma AddAfterMod(x: nat, c: nat, n: nat)
    requires n > 0
    ensures (x % n + c) % n == (x + c) % n
  {
    Probing.RemainderApart(x, n);
    Probing.SameRemainder(x % n + c, x + c, n);
  }

  // The outcome of a call on tables t: a success at its probe-th probe, or none.
  ghost predicate Probed(t: Tables, start: nat, n: nat, ok: bool, sweep: nat, k: nat)
    requires n > 0
  {
    if ok then
      && sweep < 1000 && k < n && !Exhausted(t, Probing.ProbeAt(start, sweep, k, n))
      && (forall j :: 0 <= j < k ==> Exhausted(t, Probing.ProbeAt(start, sweep, j, n)))
      && (forall i, j :: 0 <= i < sweep && 0 <= j < n ==> Exhausted(t, Probing.ProbeAt(start, i, j, n)))
    else forall i, j :: 0 <= i < 1000 && 0 <= j < n ==> Exhausted(t, Probing.ProbeAt(start, i, j, n))
  }

  /** One call of schedule, with its outcome: the probe it succeeded at, and the
      worker it found there. */
  datatype Call = Call(start: nat, ok: bool, sweep: nat, k: nat, worker: int)

  function PartitionOf(c: Call, n: nat): nat
    requires n > 0
  {
    Probing.ProbeAt(c.start, c.sweep, c.k, n)
  }

  /** A call that takes tables t to u: one slot goes to the task, or nothing changes. */
  ghost predicate Called(t: Tables, n: int, task: int, c: Call, u: Tables) {
    && c.start < n && Probed(t, c.start, n, c.ok, c.sweep, c.k)
    && if c.ok then Available(t, PartitionOf(c, n), c.worker) && u == Reserve(t, PartitionOf(c, n), c.worker, task) else u == t
  }

  /** SinglePartitionedFIFOTaskScheduler. */
  class SinglePartitionedFIFOTaskScheduler {
    const db: Db
    const partitions: nat
    const numWorkers: nat
    const workerCapacity: nat
    var taskindex: nat

    constructor (db: Db, partitions: nat, numWorkers: nat, workerCapacity: nat)
      ensures this.db == db && this.partitions == partitions && this.numWorkers == numWorkers
      ensures this.workerCapacity == workerCapacity && taskindex == 0
    {
      taskindex := 0;
      this.db, this.partitions, this.numWorkers, this.workerCapacity := db, partitions, numWorkers, workerCapacity;
    }

    function Active(): int { Min(partitions, numWorkers) }

    method Setup()
      requires partitions > 0
      modifies db
      ensures db.View() == Tables(map[], Placement(numWorkers, partitions, workerCapacity))
    {
      db.TruncateWorkerTable();
      db.TruncateTaskTable();
      var i := 0;
      while i < numWorkers
        invariant 0 <= i <= numWorkers
        invariant db.View() == Tables(map[], Placement(i, partitions, workerCapacity))
      {
        PlacementMore(i, partitions, workerCapacity);
        db.InsertWorker(i, workerCapacity, i % partitions);
        i := i + 1;
      }
    }

    /** selectTaskWorker, with start for the random first partition. It succeeds at
        the first probe of a partition that is not exhausted, and gives up, with
        both tables unchanged, only when MAXTRY sweeps have probed none. */
    method SelectTaskWorker(task: int, start: nat) returns (ok: bool, ghost call: Call)
      requires start < Active() && task !in db.tasks
      modifies db
      ensures call.start == start && call.ok == ok && Called(old(db.View()), Active(), task, call, db.View())
    {
      var n := Active();
      var pkey := start;
      ghost var before := db.View();
      assert pkey == Probing.ProbeAt(start, 0, 0, n) by { StartIs(start, n); }
      var t := 0;
      while t < Probing.MAXTRY
        invariant 0 <= t <= Probing.MAXTRY && db.View() == old(db.View())
        invariant pkey == Probing.ProbeAt(start, t, 0, n)
        invariant forall i, j :: 0 <= i < t && 0 <= j < n ==> Exhausted(db.View(), Probing.ProbeAt(start, i, j, n))
      {
        var count := 1;
        while count <= n
          invariant 1 <= count <= n + 1 && db.View() == old(db.View())
          invariant pkey == Probing.ProbeAt(start, t, count - 1, n)
          invariant forall j :: 0 <= j < count - 1 ==> Exhausted(db.View(), Probing.ProbeAt(start, t, j, n))
        {
          var status := db.SelectSinglePartitionedTaskWorker(pkey, task);
          if status == SUCCESS {
            ghost var w :| Available(before, pkey, w) && db.View() == Reserve(before, pkey, w, task);
            return true, Call(start, true, t, count - 1, w);
          }
          NextProbe(start, t, count - 1, n);
          pkey := (pkey + count) % n;
          count := count + 1;
        }
        NextProbe(start, t, 0, n);
        t := t + 1;
      }
      return false, Call(start, false, 0, 0, 0);
    }

    /** schedule: fetch_add gives every call an id of its own. */
    method Schedule(start: nat) returns (ok: bool, ghost call: Call)
      requires start < Active() && taskindex !in db.tasks
      modifies this, db
      ensures taskindex == old(taskindex) + 1
      ensures call.start == start && call.ok == ok && Called(old(db.View()), Active(), old(taskindex), call, db.View())
    {
      var taskId := taskindex;
      taskindex := taskindex + 1;
      ok, call := SelectTaskWorker(taskId, start);
    }
  }

  lemma StartIs(start: nat, n: nat)
    requires start < n
    ensures Probing.ProbeAt(start, 0, 0, n) == start
  {
    assert Probing.Tri(0) == 0 && 0 * Probing.Tri(n) == 0;
  }

  // ---- what that means for a caller ----

  /** With a power of two of active partitions the scheduler finds a free slot,
      within one sweep, exactly when there is one. */
  lemma FindsIfAny(t: Tables, start: nat, n: nat, ok: bool, sweep: nat, k: nat)
    requires n > 0 && Probing.PowerOfTwo(n) && InActive(t, n) && Probed(t, start, n, ok, sweep, k)
    ensures ok <==> HasFree(t)
    ensures ok ==> sweep == 0
  {
    var m: nat :| n == Probing.Pow2(m);
    FreeIff(t, n);
    if HasFree(t) {
      var p: nat :| p < n && !Exhausted(t, p);
      var j := Probing.SweepVisits(m, start, 0, p);
      assert !Exhausted(t, Probing.ProbeAt(start, 0, j, n));
    }
    if ok {
      assert Probing.ProbeAt(start, sweep, k, n) < n;
    }
  }

  // ---- every run ----

  // The tables after a call.
  function After(t: Tables, n: nat, task: int, c: Call): Tables
    requires n > 0
  {
    if c.ok then Reserve(t, PartitionOf(c, n), c.worker, task) else t
  }

  /** Any run of calls, the tasks numbered from task on. */
  ghost predicate CallRun(t: Tables, n: nat, task: nat, calls: seq<Call>, u: Tables)
    requires n > 0
    decreases |calls|
  {
    if calls == [] then u == t
    else
      && Called(t, n, task, calls[0], After(t, n, task, calls[0]))
      && CallRun(After(t, n, task, calls[0]), n, task + 1, calls[1..], u)
  }

  /** No worker has given away more slots than it had. */
  ghost predicate Solvent(t: Tables) {
    forall w :: w in t.workers ==> t.workers[w].capacity >= 0
  }

  lemma AfterKeeps(t: Tables, n: nat, task: int, c: Call)
    requires n > 0 && InActive(t, n) && Solvent(t) && Called(t, n, task, c, After(t, n, task, c))
    ensures InActive(After(t, n, task, c), n) && Solvent(After(t, n, task, c))
    ensures Total(After(t, n, task, c).workers, EVERYWHERE) == Total(t.workers, EVERYWHERE) - if c.ok then 1 else 0
  {
    if c.ok {
      var p := PartitionOf(c, n);
      TotalMoves(t.(tasks := t.tasks[task := TaskRow(c.worker, Pending, p)]), p, c.worker, -1, EVERYWHERE);
    }
  }

  lemma {:induction false} RunKeeps(t: Tables, n: nat, task: nat, calls: seq<Call>, u: Tables)
    requires n > 0 && InActive(t, n) && Solvent(t) && CallRun(t, n, task, calls, u)
    ensures InActive(u, n) && Solvent(u)
    decreases |calls|
  {
    hide Probed, Total;
    if calls != [] {
      AfterKeeps(t, n, task, calls[0]);
      RunKeeps(After(t, n, task, calls[0]), n, task + 1, calls[1..], u);
    }
  }

  /** There is a free slot exactly when the sum of them says so. */
  lemma TotalSays(t: Tables)
    requires Solvent(t)
    ensures 0 <= Total(t.workers, EVERYWHERE) && (HasFree(t) <==> 0 < Total(t.workers, EVERYWHERE))
    decreases |t.workers|
  {
    if w :| w in t.workers {
      var rest := t.(workers := t.workers - {w});
      TotalAt(t.workers, EVERYWHERE, w);
      TotalSays(rest);
      if HasFree(rest) {
        var v :| v in rest.workers && rest.workers[v].capacity > 0;
        assert t.workers[v].capacity > 0;
      }
      if HasFree(t) && t.workers[w].capacity == 0 {
        var v :| v in t.workers && t.workers[v].capacity > 0;
        assert v in rest.workers && rest.workers[v].capacity > 0;
      }
    }
  }

  /** With a power of two of active partitions, a run of calls succeeds exactly as
      often as there are free slots, and from then on fails. */
  lemma {:induction false} RunSpends(t: Tables, n: nat, task: nat, calls: seq<Call>, u: Tables)
    requires n > 0 && Probing.PowerOfTwo(n) && InActive(t, n) && Solvent(t) && CallRun(t, n, task, calls, u)
    ensures forall i :: 0 <= i < |calls| ==> (calls[i].ok <==> i < Total(t.workers, EVERYWHERE))
    decreases |calls|
  {
    hide Probed, Total, HasFree;
    if calls != [] {
      var c := calls[0];
      var next := After(t, n, task, c);
      AfterKeeps(t, n, task, c);
      FindsIfAny(t, c.start, n, c.ok, c.sweep, c.k);
      TotalSays(t);
      RunSpends(next, n, task + 1, calls[1..], u);
      forall i | 0 <= i < |calls|
        ensures calls[i].ok <==> i < Total(t.workers, EVERYWHERE)
      {
        if i > 0 {
          assert calls[i] == calls[1..][i - 1];
        }
      }
    }
  }

  function SetupTables(workers: nat, partitions: nat, capacity: nat): Tables
    requires partitions > 0
  {
    Tables(map[], Placement(workers, partitions, capacity))
  }

  lemma {:induction false} PlacementTotal(workers: nat, partitions: nat, capacity: nat)
    requires partitions > 0
    ensures Total(Placement(workers, partitions, capacity), EVERYWHERE) == workers * capacity
    decreases workers
  {
    if workers > 0 {
      var last := workers - 1;
      PlacementMore(last, partitions, capacity);
      PlacementTotal(last, partitions, capacity);
      TotalAt(Placement(workers, partitions, capacity), EVERYWHERE, last);
      assert Placement(workers, partitions, capacity) - {last} == Placement(last, partitions, capacity);
      assert workers * capacity == last * capacity + capacity;
    } else {
      assert !exists w :: w in Placement(0, partitions, capacity);
    }
  }

  lemma SetupFacts(workers: nat, partitions: nat, capacity: nat)
    requires partitions > 0
    ensures InActive(SetupTables(workers, partitions, capacity), Min(partitions, workers))
    ensures Solvent(SetupTables(workers, partitions, capacity))
  {
    PlacementActive(map[], workers, partitions, capacity);
  }

  /** From the setup, with a power of two of active partitions, exactly the first
      workers * capacity calls of schedule succeed, whatever partitions they
      start from and whatever workers the database picks. */
  lemma ExactlyCapacity(workers: nat, partitions: nat, capacity: nat, calls: seq<Call>, u: Tables)
    requires partitions > 0 && workers > 0 && Probing.PowerOfTwo(Min(partitions, workers))
    requires CallRun(SetupTables(workers, partitions, capacity), Min(partitions, workers), 0, calls, u)
    ensures forall i :: 0 <= i < |calls| ==> (calls[i].ok <==> i < workers * capacity)
  {
    SetupFacts(workers, partitions, capacity);
    PlacementTotal(workers, partitions, capacity);
    RunSpends(SetupTables(workers, partitions, capacity), Min(partitions, workers), 0, calls, u);
  }

  // ---- any other number of partitions ----

  /** A call from the partition of a worker with a free slot may take that slot. */
  lemma TakeFrom(t: Tables, n: nat, task: nat, w: int) returns (c: Call)
    requires n > 0 && InActive(t, n) && w in t.workers && t.workers[w].capacity > 0
    ensures c.ok && After(t, n, task, c) == Reserve(t, t.workers[w].pkey, w, task)
    ensures Called(t, n, task, c, After(t, n, task, c))
  {
    var p := t.workers[w].pkey;
    c := Call(p, true, 0, 0, w);
    StartIs(p, n);
    assert Available(t, p, w);
  }

  // The tables once every slot outside partition p has been given away.
  predicate LeftIn(t: Tables, p: int, u: Tables) {
    && u.workers.Keys == t.workers.Keys
    && forall w :: w in t.workers ==> u.workers[w] == if t.workers[w].pkey == p then t.workers[w] else t.workers[w].(capacity := 0)
  }

  lemma {:induction false} SpendOutside(t: Tables, n: nat, task: nat, p: int) returns (calls: seq<Call>, u: Tables)
    requires n > 0 && InActive(t, n) && Solvent(t)
    ensures CallRun(t, n, task, calls, u) && LeftIn(t, p, u)
    decreases Total(t.workers, EVERYWHERE)
  {
    hide Called, Total;
    if w :| w in t.workers && t.workers[w].pkey != p && t.workers[w].capacity > 0 {
      var c := TakeFrom(t, n, task, w);
      var next := After(t, n, task, c);
      AfterKeeps(t, n, task, c);
      TotalSays(next);
      var rest;
      rest, u := SpendOutside(next, n, task + 1, p);
      calls := [c] + rest;
      assert calls[1..] == rest;
      LeftFrom(t, w, task, p, u);
    } else {
      calls, u := [], t;
    }
  }

  lemma LeftFrom(t: Tables, w: int, task: int, p: int, u: Tables)
    requires w in t.workers && t.workers[w].pkey != p && LeftIn(Reserve(t, t.workers[w].pkey, w, task), p, u)
    ensures LeftIn(t, p, u)
  {
  }

  /** What one call of schedule makes of the tables, whatever its start. */
  ghost predicate FindsAlways(t: Tables, n: nat)
    requires n > 0
  {
    forall start: nat, ok, sweep: nat, k: nat :: start < n && Probed(t, start, n, ok, sweep, k) ==> (ok <==> HasFree(t))
  }

  /** With any other number of active partitions some tables that the setup and
      calls of schedule lead to have free slots that a call misses: those of the
      partition that its start never probes, once all others are taken. */
  lemma MissesSome(workers: nat, partitions: nat, capacity: nat, start: nat) returns (calls: seq<Call>, u: Tables)
    requires partitions > 0 && workers > 0 && capacity > 0 && !Probing.PowerOfTwo(Min(partitions, workers))
    ensures CallRun(SetupTables(workers, partitions, capacity), Min(partitions, workers), 0, calls, u) && HasFree(u)
    ensures forall ok, sweep: nat, k: nat :: Probed(u, start, Min(partitions, workers), ok, sweep, k) <==> !ok
  {
    var n := Min(partitions, workers);
    var t := SetupTables(workers, partitions, capacity);
    var p := Probing.Missed(n, start);
    SetupFacts(workers, partitions, capacity);
    calls, u := SpendOutside(t, n, 0, p);
    ModBelow(p, partitions);
    assert p in t.workers && u.workers[p] == WorkerRow(capacity, p);
    forall q | q != p
      ensures Exhausted(u, q)
    {
    }
    forall ok, sweep: nat, k: nat
      ensures Probed(u, start, n, ok, sweep, k) <==> !ok
    {
    }
  }

  /** Tables that the setup and calls of schedule lead to. */
  ghost predicate Met(workers: nat, partitions: nat, capacity: nat, u: Tables)
    requires partitions > 0 && workers > 0
  {
    exists calls :: CallRun(SetupTables(workers, partitions, capacity), Min(partitions, workers), 0, calls, u)
  }

  /** The scheduler finds a free slot whenever there is one, on all the tables that
      it can meet, if and only if the number of active partitions is a power of two. */
  lemma FindsAlwaysIff(workers: nat, partitions: nat, capacity: nat)
    requires partitions > 0 && workers > 0 && capacity > 0
    ensures var n := Min(partitions, workers);
            Probing.PowerOfTwo(n) <==> forall u :: Met(workers, partitions, capacity, u) ==> FindsAlways(u, n)
  {
    var n := Min(partitions, workers);
    var t := SetupTables(workers, partitions, capacity);
    hide FindsAlways, CallRun, SetupTables;
    if Probing.PowerOfTwo(n) {
      forall u | Met(workers, partitions, capacity, u)
        ensures FindsAlways(u, n)
      {
        var calls :| CallRun(t, n, 0, calls, u);
        SetupFacts(workers, partitions, capacity);
        RunKeeps(t, n, 0, calls, u);
        AlwaysFinds(u, n);
      }
    } else {
      var calls, u := MissesSome(workers, partitions, capacity, 0);
      Misses(u, n);
      assert Met(workers, partitions, capacity, u);
    }
  }

  lemma Misses(u: Tables, n: nat)
    requires n > 0 && Probed(u, 0, n, false, 0, 0) && HasFree(u)
    ensures !FindsAlways(u, n)
  {
    hide Probed, HasFree;
  }

  lemma AlwaysFinds(t: Tables, n: nat)
    requires n > 0 && Probing.PowerOfTwo(n) && InActive(t, n)
    ensures FindsAlways(t, n)
  {
    hide Probed;
    forall start: nat, ok, sweep: nat, k: nat | start < n && Probed(t, start, n, ok, sweep, k)
      ensures ok <==> HasFree(t)
    {
      FindsIfAny(t, start, n, ok, sweep, k);
    }
  }
}
