/** The Spark scheduler: tasks go to workers that hold their data. A data
    location index leads to the partitions, a reservation takes a slot there, an
    asynchronous call runs it there, and a finished call gives the slot back. */
module Spark {

  datatype Option<T> = None | Some(value: T)

  // One row of the Worker table. A worker has a row for each of its data shards.
  datatype ShardRow = ShardRow(worker: int, capacity: int, shard: int, pkey: int)

  datatype Location = Location(shard: int, pkey: int)

  // A row of the Task table; state 3 is COMPLETE.
  datatype SparkTask = SparkTask(worker: int, state: int, pkey: int)

  datatype Store = Store(rows: seq<ShardRow>, locations: seq<Location>, tasks: map<int, SparkTask>)

  // ---- what the procedures do to the tables ----

  /** A new capacity for every row of the worker in its partition. */
  function SetCapacity(rows: seq<ShardRow>, pkey: int, worker: int, capacity: int): (r: seq<ShardRow>)
    ensures |r| == |rows|
  {
    seq(|rows|, i requires 0 <= i < |rows| =>
      if rows[i].pkey == pkey && rows[i].worker == worker then rows[i].(capacity := capacity) else rows[i])
  }

  /** The capacity in the first row found for a worker. */
  function CapacityOf(rows: seq<ShardRow>, worker: int, pkey: int): Option<int> {
    if rows == [] then None
    else if rows[0].pkey == pkey && rows[0].worker == worker then Some(rows[0].capacity)
    else CapacityOf(rows[1..], worker, pkey)
  }

  /** The slot that FinishWorkerTask gives back. */
  function Freed(rows: seq<ShardRow>, worker: int, pkey: int): seq<ShardRow> {
    match CapacityOf(rows, worker, pkey)
    case None => rows
    case Some(c) => SetCapacity(rows, pkey, worker, c + 1)
  }

  function Done(tasks: map<int, SparkTask>, task: int, pkey: int): map<int, SparkTask> {
    if task in tasks && tasks[task].pkey == pkey then tasks[task := tasks[task].(state := 3)] else tasks
  }

  /** FinishWorkerTask: nothing at all for a worker that is not there, and no task
      for the id -1. */
  function Finished(s: Store, worker: int, task: int, pkey: int): Store {
    if CapacityOf(s.rows, worker, pkey) == None then s
    else s.(rows := Freed(s.rows, worker, pkey), tasks := if task != -1 then Done(s.tasks, task, pkey) else s.tasks)
  }

  predicate Offers(rows: seq<ShardRow>, pkey: int, shard: int, i: int) {
    0 <= i < |rows| && rows[i].pkey == pkey && rows[i].shard == shard && rows[i].capacity > 0
  }

  /** InsertSparkWorker. */
  function Inserted(s: Store, worker: int, capacity: int, shard: int, pkey: int): Store {
    s.(rows := s.rows + [ShardRow(worker, capacity, shard, pkey)], locations := s.locations + [Location(shard, pkey)])
  }

  /** The partitions SelectDataShardPartition returns. */
  function PartitionsOf(locations: seq<Location>, shard: int): set<int> {
    set i | 0 <= i < |locations| && locations[i].shard == shard :: locations[i].pkey
  }

  /** The tables themselves, and the procedures over them. */
  class SparkDb {
    var rows: seq<ShardRow>
    var locations: seq<Location>
    var tasks: map<int, SparkTask>

    ghost function View(): Store
      reads this
    {
      Store(rows, locations, tasks)
    }

    constructor ()
      ensures View() == Store([], [], map[])
    {
      rows, locations, tasks := [], [], map[];
    }

    // TruncateWorkerTable clears the index too.
    method TruncateWorkerTable()
      modifies this
      ensures View() == old(View()).(rows := [], locations := [])
    {
      rows, locations := [], [];
    }

    method InsertSparkWorker(worker: int, capacity: int, shard: int, pkey: int)
      modifies this
      ensures View() == Inserted(old(View()), worker, capacity, shard, pkey)
    {
      rows := rows + [ShardRow(worker, capacity, shard, pkey)];
      locations := locations + [Location(shard, pkey)];
    }

    method SelectDataShardPartition(shard: int) returns (pkeys: set<int>)
      ensures pkeys == PartitionsOf(locations, shard)
    {
      pkeys := {};
      var i := 0;
      while i < |locations|
        invariant 0 <= i <= |locations|
        invariant pkeys == set j | 0 <= j < i && locations[j].shard == shard :: locations[j].pkey
      {
        if locations[i].shard == shard {
          pkeys := pkeys + {locations[i].pkey};
        }
        i := i + 1;
      }
    }

    // The new capacity, row by row.
    method UpdateCapacity(capacity: int, pkey: int, worker: int)
      modifies this`rows
      ensures rows == SetCapacity(old(rows), pkey, worker, capacity)
    {
      var i := 0;
      while i < |rows|
        invariant 0 <= i <= |rows| == |old(rows)|
        invariant forall j :: 0 <= j < i ==> rows[j] == SetCapacity(old(rows), pkey, worker, capacity)[j]
        invariant forall j :: i <= j < |rows| ==> rows[j] == old(rows)[j]
      {
        if rows[i].pkey == pkey && rows[i].worker == worker {
          rows := rows[i := rows[i].(capacity := capacity)];
        }
        i := i + 1;
      }
    }

    method SelectSparkWorker(pkey: int, shard: int) returns (worker: int)
      requires forall i :: 0 <= i < |rows| ==> rows[i].worker != -1
      modifies this
      ensures worker == -1 ==> View() == old(View()) && forall i :: !Offers(rows, pkey, shard, i)
      ensures worker != -1 ==>
                exists i :: (Offers(old(rows), pkey, shard, i) && worker == old(rows)[i].worker
                             && View() == old(View()).(rows := SetCapacity(old(rows), pkey, worker, old(rows)[i].capacity - 1)))
    {
      var i := 0;
      while i < |rows|
        invariant 0 <= i <= |rows| && View() == old(View())
        invariant forall j :: 0 <= j < i ==> !Offers(rows, pkey, shard, j)
      {
        if rows[i].pkey == pkey && rows[i].capacity > 0 && rows[i].shard == shard {
          worker := rows[i].worker;
          assert Offers(rows, pkey, shard, i);
          UpdateCapacity(rows[i].capacity - 1, pkey, worker);
          return;
        }
        i := i + 1;
      }
      return -1;
    }

    /** The capacity is read from one row of the worker and written back to all. */
    method FinishWorkerTask(worker: int, task: int, pkey: int) returns (status: int)
      modifies this
      ensures View() == Finished(old(View()), worker, task, pkey)
      ensures status == if CapacityOf(old(rows), worker, pkey) == None then -1 else 0
      ensures tasks.Keys == old(tasks).Keys
      ensures forall t :: t in tasks ==>
                tasks[t] == if status == 0 && t == task && t != -1 && old(tasks)[t].pkey == pkey
                            then SparkTask(old(tasks)[t].worker, 3, pkey) else old(tasks)[t]
    {
      var i := 0;
      while i < |rows|
        invariant 0 <= i <= |rows| && View() == old(View())
        invariant CapacityOf(rows, worker, pkey) == CapacityOf(rows[i..], worker, pkey)
      {
        if rows[i].pkey == pkey && rows[i].worker == worker {
          UpdateCapacity(rows[i].capacity + 1, pkey, worker);
          if task != -1 && task in tasks && tasks[task].pkey == pkey {
            tasks := tasks[task := tasks[task].(state := 3)];
          }
          return 0;
        }
        i := i + 1;
      }
      return -1;
    }
  }

  // ---- one scheduler ----

  datatype Item = Item(task: int, target: int)

  // How far a task's slot has got: reserved, call sent, call answered, announced
  // to its caller but the slot not yet given back.
  datatype Stage = Chosen | Called | Answered | Announced

  datatype Hold = Hold(worker: int, stage: Stage)

  /** targets and served are history: what every task asked for, and where its
      call was answered. */
  // sent says that the call for the first task is out, but the task still queued.
  datatype Scheduler = Scheduler(taskIDs: int, queue: seq<Item>, partitions: Option<set<int>>, sent: bool, held: map<int, Hold>,
                                 completed: set<int>, returned: set<int>, targets: map<int, int>, served: map<int, int>)

  const NewScheduler := Scheduler(0, [], None, false, map[], {}, {}, map[], map[])

  datatype Action =
    | Submit(target: int)          // schedule puts its task into the queue
    | LookUp                       // selectWorker asks for the partitions of the data
    | Reserve(pkey: int, row: nat) // SelectSparkWorker finds this row
    | Send                         // assignTaskToWorker
    | Pop                          // the pop from the queue that follows it
    | Answer(task: int)            // the worker's reply
    | Announce(task: int)          // finishTask: into the completion set
    | GiveBack(task: int)          // finishTask: FinishWorkerTask
    | Return(task: int)            // schedule sees its task in the set

  predicate At(c: Scheduler, task: int, stage: Stage) {
    task in c.held && c.held[task].stage == stage
  }

  /** When a thread of the scheduler can take this step. */
  predicate Enabled(s: Store, c: Scheduler, a: Action) {
    match a
    case Submit(_) => true
    case LookUp => c.queue != [] && c.partitions == None
    case Reserve(p, i) =>
      && c.queue != [] && !c.sent && c.queue[0].task !in c.held
      && c.partitions.Some? && p in c.partitions.value && Offers(s.rows, p, c.queue[0].target, i)
    case Send => c.queue != [] && !c.sent && At(c, c.queue[0].task, Chosen)
    case Pop => c.sent && c.queue != []
    case Answer(t) => At(c, t, Called)
    case Announce(t) => At(c, t, Answered)
    case GiveBack(t) => At(c, t, Announced)
    case Return(t) => t in c.completed
  }

  function Do(s: Store, c: Scheduler, a: Action, n: nat): (Store, Scheduler)
    requires n > 0 && Enabled(s, c, a)
  {
    match a
    case Submit(target) =>
      (s, c.(taskIDs := c.taskIDs + 1, queue := c.queue + [Item(c.taskIDs, target)], targets := c.targets[c.taskIDs := target]))
    case LookUp => (s, c.(partitions := Some(PartitionsOf(s.locations, c.queue[0].target))))
    case Reserve(p, i) =>
      var w := s.rows[i].worker;
      (s.(rows := SetCapacity(s.rows, p, w, s.rows[i].capacity - 1)), c.(held := c.held[c.queue[0].task := Hold(w, Chosen)]))
    case Send =>
      var t := c.queue[0].task;
      (s, c.(held := c.held[t := Hold(c.held[t].worker, Called)], sent := true))
    case Pop => (s, c.(queue := c.queue[1..], partitions := None, sent := false))
    case Answer(t) =>
      (s, c.(held := c.held[t := Hold(c.held[t].worker, Answered)], served := c.served[t := c.held[t].worker]))
    case Announce(t) => (s, c.(held := c.held[t := Hold(c.held[t].worker, Announced)], completed := c.completed + {t}))
    case GiveBack(t) =>
      var w := c.held[t].worker;
      (Finished(s, w, t, w % n), c.(held := c.held - {t}))
    case Return(t) => (s, c.(returned := c.returned + {t}))
  }

  // ---- the cluster ----

  /** The tables, the schedulers, and the capacity each worker was started with. */
  datatype Cluster = Cluster(store: Store, schedulers: map<int, Scheduler>, initial: map<int, int>)

  datatype ClusterStep =
    | Insert(worker: int, capacity: nat, shard: int) // one InsertSparkWorker of startServing
    | Take(scheduler: int, action: Action)

  /** The slots of a worker that are reserved and not yet given back. */
  function Outstanding(schedulers: map<int, Scheduler>, worker: int): set<(int, int)> {
    set c, t | c in schedulers && t in schedulers[c].held && schedulers[c].held[t].worker == worker :: (c, t)
  }

  /** startServing inserts all rows of a worker before it takes any task. */
  predicate StepEnabled(s: Cluster, step: ClusterStep) {
    match step
    case Insert(w, capacity, _) =>
      w >= 0 && (w in s.initial ==> s.initial[w] == capacity && Outstanding(s.schedulers, w) == {})
    case Take(c, a) => c in s.schedulers && Enabled(s.store, s.schedulers[c], a)
  }

  function StepDo(s: Cluster, step: ClusterStep, n: nat): Cluster
    requires n > 0 && StepEnabled(s, step)
  {
    match step
    case Insert(w, capacity, shard) =>
      s.(store := Inserted(s.store, w, capacity, shard, w % n), initial := s.initial[w := capacity])
    case Take(c, a) =>
      var (store, sched) := Do(s.store, s.schedulers[c], a, n);
      s.(store := store, schedulers := s.schedulers[c := sched])
  }

  ghost predicate Run(s: Cluster, steps: seq<ClusterStep>, last: Cluster, n: nat)
    requires n > 0
    decreases |steps|
  {
    if steps == [] then last == s
    else StepEnabled(s, steps[0]) && Run(StepDo(s, steps[0], n), steps[1..], last, n)
  }

  ghost predicate Init(s: Cluster) {
    s.store.rows == [] && s.store.locations == [] && s.initial == map[]
    && forall c :: c in s.schedulers ==> s.schedulers[c] == NewScheduler
  }

  // ---- the invariant ----

  /** The worker holds the data. */
  ghost predicate HasShard(rows: seq<ShardRow>, worker: int, shard: int) {
    exists i :: 0 <= i < |rows| && rows[i].worker == worker && rows[i].shard == shard
  }

  /** The index lists the shard and the partition of every row. */
  ghost predicate Indexed(s: Store) {
    && |s.locations| == |s.rows|
    && forall i :: 0 <= i < |s.rows| ==> s.locations[i] == Location(s.rows[i].shard, s.rows[i].pkey)
  }

  ghost predicate RowsPlaced(rows: seq<ShardRow>, n: nat)
    requires n > 0
  {
    forall i :: 0 <= i < |rows| ==> rows[i].worker >= 0 && rows[i].pkey == rows[i].worker % n
  }

  /** Free and outstanding slots add up, row by row. */
  ghost predicate SlotsAdd(s: Cluster) {
    forall i :: 0 <= i < |s.store.rows| ==>
      var row := s.store.rows[i];
      && row.worker in s.initial && 0 <= row.capacity
      && row.capacity + |Outstanding(s.schedulers, row.worker)| == s.initial[row.worker]
  }

  /** Whatever a scheduler holds or has had answered lies with the right data. */
  ghost predicate Routed(rows: seq<ShardRow>, c: Scheduler) {
    && (forall t :: t in c.held ==> t in c.targets && HasShard(rows, c.held[t].worker, c.targets[t]))
    && (forall t :: t in c.served ==> t in c.targets && HasShard(rows, c.served[t], c.targets[t]))
  }

  ghost predicate InOrder(c: Scheduler) {
    && (forall t :: t in c.targets ==> 0 <= t < c.taskIDs)
    && (forall i :: 0 <= i < |c.queue| ==> c.queue[i].task in c.targets && c.targets[c.queue[i].task] == c.queue[i].target)
    && (forall t :: t in c.held && c.held[t].stage in {Answered, Announced} ==> t in c.served)
    && (forall t :: t in c.held || t in c.served ==> t in c.targets)
    && c.completed <= c.served.Keys && c.returned <= c.completed
    && 0 <= c.taskIDs
  }

  /** Tasks are dealt with in the order of their ids, and each of them once: none
      that is still to be called has a slot, but for the first, or an answer. */
  ghost predicate Once(c: Scheduler) {
    && (forall i, j :: 0 <= i < j < |c.queue| ==> c.queue[i].task < c.queue[j].task)
    && (c.sent ==> c.queue != [])
    && (c.queue != [] ==>
          && (forall t :: t in c.held || t in c.served ==> t <= c.queue[0].task)
          && (!c.sent ==> c.queue[0].task !in c.served && (c.queue[0].task in c.held ==> At(c, c.queue[0].task, Chosen))))
  }

  /** No submitted task is lost: ids are given in order, the last of them are in
      the queue and all others have a slot or an answer. A task is announced
      exactly from its answer's turn on. */
  ghost predicate NoneLost(c: Scheduler) {
    InLine(c) && LookedAfter(c) && Announcing(c)
  }

  ghost predicate InLine(c: Scheduler) {
    && |c.queue| <= c.taskIDs
    && (forall t :: t in c.targets <==> 0 <= t < c.taskIDs)
    && (forall i :: 0 <= i < |c.queue| ==> c.queue[i].task == c.taskIDs - |c.queue| + i)
  }

  ghost predicate LookedAfter(c: Scheduler) {
    && (forall t :: 0 <= t < c.taskIDs - |c.queue| ==> t in c.held || t in c.served)
    && (c.sent ==> c.queue != [] && (c.queue[0].task in c.held || c.queue[0].task in c.served))
  }

  ghost predicate Announcing(c: Scheduler) {
    && (forall t :: t in c.completed <==> t in c.served && !At(c, t, Answered))
    && (forall t :: At(c, t, Chosen) || At(c, t, Called) ==> t !in c.served)
  }

  /** What has been looked up are partitions where the data of the first task lie. */
  ghost predicate Directed(rows: seq<ShardRow>, c: Scheduler) {
    c.partitions.Some? ==>
      && c.queue != []
      && forall p :: p in c.partitions.value ==> exists i :: HoldsIn(rows, i, c.queue[0].target, p)
  }

  predicate HoldsIn(rows: seq<ShardRow>, i: int, shard: int, pkey: int) {
    0 <= i < |rows| && rows[i].shard == shard && rows[i].pkey == pkey
  }

  ghost predicate Kept(rows: seq<ShardRow>, c: Scheduler) {
    Routed(rows, c) && InOrder(c) && Once(c) && NoneLost(c) && Directed(rows, c)
  }

  ghost predicate Sound(s: Cluster, n: nat)
    requires n > 0
  {
    && Indexed(s.store) && RowsPlaced(s.store.rows, n) && SlotsAdd(s)
    && forall c :: c in s.schedulers ==> Kept(s.store.rows, s.schedulers[c])
  }

  // ---- one step ----

  lemma CapacityFound(rows: seq<ShardRow>, worker: int, pkey: int, i: int)
    requires 0 <= i < |rows| && rows[i].worker == worker && rows[i].pkey == pkey
    ensures CapacityOf(rows, worker, pkey).Some?
    ensures exists j :: 0 <= j < |rows| && rows[j].worker == worker && rows[j].pkey == pkey
                        && CapacityOf(rows, worker, pkey).value == rows[j].capacity
    decreases |rows|
  {
    if !(rows[0].pkey == pkey && rows[0].worker == worker) {
      CapacityFound(rows[1..], worker, pkey, i - 1);
      var j :| 0 <= j < |rows[1..]| && rows[1..][j].worker == worker && rows[1..][j].pkey == pkey
               && CapacityOf(rows[1..], worker, pkey).value == rows[1..][j].capacity;
      assert rows[1..][j] == rows[j + 1];
    } else {
      assert rows[0].worker == worker;
    }
  }

  // Only capacities differ.
  ghost predicate SameRows(rows: seq<ShardRow>, next: seq<ShardRow>) {
    |next| == |rows| && forall i :: 0 <= i < |rows| ==> next[i] == rows[i].(capacity := next[i].capacity)
  }

  lemma RoutedStays(rows: seq<ShardRow>, next: seq<ShardRow>, c: Scheduler)
    requires Routed(rows, c) && |rows| <= |next|
    requires forall i :: 0 <= i < |rows| ==> next[i].worker == rows[i].worker && next[i].shard == rows[i].shard
    ensures Routed(next, c)
  {
    forall w, shard | HasShard(rows, w, shard)
      ensures HasShard(next, w, shard)
    {
      var i :| 0 <= i < |rows| && rows[i].worker == w && rows[i].shard == shard;
      assert next[i].worker == w;
    }
  }

  lemma DirectedStays(rows: seq<ShardRow>, next: seq<ShardRow>, c: Scheduler)
    requires Directed(rows, c) && |rows| <= |next|
    requires forall i :: 0 <= i < |rows| ==> next[i].pkey == rows[i].pkey && next[i].shard == rows[i].shard
    ensures Directed(next, c)
  {
    if c.partitions.Some? {
      forall p | p in c.partitions.value
        ensures exists i :: HoldsIn(next, i, c.queue[0].target, p)
      {
        var i :| HoldsIn(rows, i, c.queue[0].target, p);
        assert HoldsIn(next, i, c.queue[0].target, p);
      }
    }
  }

  /** A scheduler's own step keeps its tasks routed, in order, and served once. */
  lemma OwnStep(s: Store, c: Scheduler, a: Action, n: nat)
    requires n > 0 && Indexed(s) && Kept(s.rows, c) && Enabled(s, c, a)
    ensures Kept(s.rows, Do(s, c, a, n).1)
  {
    hide Routed, InOrder, Once, NoneLost, Directed, Indexed, Do, Enabled;
    RoutedStep(s, c, a, n);
    OrderStep(s, c, a, n);
    OnceStep(s, c, a, n);
    NoneLostStep(s, c, a, n);
    DirectedStep(s, c, a, n);
  }

  lemma NoneLostStep(s: Store, c: Scheduler, a: Action, n: nat)
    requires n > 0 && InOrder(c) && Once(c) && NoneLost(c) && Enabled(s, c, a)
    ensures NoneLost(Do(s, c, a, n).1)
  {
    hide InLine, LookedAfter, Announcing, InOrder, Once, Do, Enabled;
    InLineStep(s, c, a, n);
    LookedAfterStep(s, c, a, n);
    AnnouncingStep(s, c, a, n);
  }

  lemma InLineStep(s: Store, c: Scheduler, a: Action, n: nat)
    requires n > 0 && InLine(c) && Enabled(s, c, a)
    ensures InLine(Do(s, c, a, n).1)
  {
  }

  lemma LookedAfterStep(s: Store, c: Scheduler, a: Action, n: nat)
    requires n > 0 && InOrder(c) && InLine(c) && LookedAfter(c) && Enabled(s, c, a)
    ensures LookedAfter(Do(s, c, a, n).1)
  {
  }

  lemma AnnouncingStep(s: Store, c: Scheduler, a: Action, n: nat)
    requires n > 0 && InOrder(c) && Once(c) && Announcing(c) && Enabled(s, c, a)
    ensures Announcing(Do(s, c, a, n).1)
  {
  }

  /** The look-up finds exactly the partitions in which some worker has the data. */
  lemma LookUpExact(s: Store, c: Scheduler, n: nat, p: int)
    requires n > 0 && Indexed(s) && Enabled(s, c, LookUp)
    ensures var d := Do(s, c, LookUp, n).1;
            d.partitions.Some? && (p in d.partitions.value <==> exists i :: HoldsIn(s.rows, i, c.queue[0].target, p))
  {
    var shard := c.queue[0].target;
    if p in PartitionsOf(s.locations, shard) {
      var i :| 0 <= i < |s.locations| && s.locations[i].shard == shard && s.locations[i].pkey == p;
      assert HoldsIn(s.rows, i, shard, p);
    }
    if i :| HoldsIn(s.rows, i, shard, p) {
      assert s.locations[i] == Location(shard, p);
    }
  }

  lemma DirectedStep(s: Store, c: Scheduler, a: Action, n: nat)
    requires n > 0 && Indexed(s) && Directed(s.rows, c) && Enabled(s, c, a)
    ensures Directed(s.rows, Do(s, c, a, n).1)
  {
    if a.LookUp? {
      forall p
        ensures p in Do(s, c, a, n).1.partitions.value ==> exists i :: HoldsIn(s.rows, i, c.queue[0].target, p)
      {
        LookUpExact(s, c, n, p);
      }
    } else {
      var d := Do(s, c, a, n).1;
      assert d.partitions.Some? ==> d.partitions == c.partitions && d.queue != [] && d.queue[0] == c.queue[0];
      hide Do, Enabled, Indexed;
    }
  }

  lemma RoutedStep(s: Store, c: Scheduler, a: Action, n: nat)
    requires n > 0 && Routed(s.rows, c) && InOrder(c) && Enabled(s, c, a)
    ensures Routed(s.rows, Do(s, c, a, n).1)
  {
    if a.Reserve? {
      assert HasShard(s.rows, s.rows[a.row].worker, c.queue[0].target);
    }
    hide HasShard;
  }

  lemma OrderStep(s: Store, c: Scheduler, a: Action, n: nat)
    requires n > 0 && InOrder(c) && Enabled(s, c, a)
    ensures InOrder(Do(s, c, a, n).1)
  {
  }

  lemma OnceStep(s: Store, c: Scheduler, a: Action, n: nat)
    requires n > 0 && InOrder(c) && Once(c) && Enabled(s, c, a)
    ensures Once(Do(s, c, a, n).1)
  {
  }

  lemma StoreStep(s: Store, c: Scheduler, a: Action, n: nat)
    requires n > 0 && Enabled(s, c, a)
    ensures var (u, d) := Do(s, c, a, n); SameRows(s.rows, u.rows) && u.locations == s.locations
  {
  }

  function HeldBy(c: Scheduler, worker: int): set<int> {
    set t | t in c.held && c.held[t].worker == worker
  }

  lemma OutstandingIs(schedulers: map<int, Scheduler>, w: int, k: (int, int))
    ensures k in Outstanding(schedulers, w) <==> k.0 in schedulers && k.1 in HeldBy(schedulers[k.0], w)
  {
    var (c, t) := k;
    if c in schedulers && t in HeldBy(schedulers[c], w) {
      assert t in schedulers[c].held && schedulers[c].held[t].worker == w;
      assert (c, t) in Outstanding(schedulers, w);
    }
  }

  /** The outstanding slots of a worker when one scheduler changes hands. */
  lemma OutstandingMoves(schedulers: map<int, Scheduler>, c: int, d: Scheduler, w: int, before: set<(int, int)>, after: set<(int, int)>)
    requires c in schedulers && before == Outstanding(schedulers, w) && after == Outstanding(schedulers[c := d], w)
    ensures HeldBy(d, w) == HeldBy(schedulers[c], w) ==> after == before
    ensures forall t :: HeldBy(d, w) == HeldBy(schedulers[c], w) + {t} && t !in HeldBy(schedulers[c], w) ==>
              after == before + {(c, t)} && (c, t) !in before
    ensures forall t :: HeldBy(d, w) == HeldBy(schedulers[c], w) - {t} && t in HeldBy(schedulers[c], w) ==>
              after == before - {(c, t)} && (c, t) in before
  {
    hide Outstanding, HeldBy;
    forall k: (int, int)
      ensures k in before <==> k.0 in schedulers && k.1 in HeldBy(schedulers[k.0], w)
      ensures k in after <==> k.0 in schedulers && k.1 in HeldBy(if k.0 == c then d else schedulers[k.0], w)
    {
      OutstandingIs(schedulers, w, k);
      OutstandingIs(schedulers[c := d], w, k);
    }
  }

  /** How many slots of worker w an action reserves or gives back. */
  function Delta(s: Store, c: Scheduler, a: Action, w: int): int
    requires Enabled(s, c, a)
  {
    match a
    case Reserve(_, i) => if s.rows[i].worker == w then 1 else 0
    case GiveBack(t) => if c.held[t].worker == w then -1 else 0
    case _ => 0
  }

  lemma HeldMoves(s: Store, c: Scheduler, a: Action, n: nat, w: int) returns (t: int)
    requires n > 0 && Enabled(s, c, a)
    ensures var d := Do(s, c, a, n).1;
            match Delta(s, c, a, w)
            case 0 => HeldBy(d, w) == HeldBy(c, w)
            case 1 => t !in HeldBy(c, w) && HeldBy(d, w) == HeldBy(c, w) + {t}
            case _ => t in HeldBy(c, w) && HeldBy(d, w) == HeldBy(c, w) - {t}
  {
    t := match a case Reserve(_, _) => c.queue[0].task case GiveBack(u) => u case _ => 0;
  }

  lemma OutstandingStep(s: Cluster, c: int, a: Action, n: nat, w: int)
    requires n > 0 && StepEnabled(s, Take(c, a))
    ensures var u := StepDo(s, Take(c, a), n);
            |Outstanding(u.schedulers, w)| == |Outstanding(s.schedulers, w)| + Delta(s.store, s.schedulers[c], a, w)
  {
    var u := StepDo(s, Take(c, a), n);
    var t := HeldMoves(s.store, s.schedulers[c], a, n, w);
    OutstandingMoves(s.schedulers, c, u.schedulers[c], w, Outstanding(s.schedulers, w), Outstanding(u.schedulers, w));
    hide Outstanding, HeldBy;
  }

  /** ... and the free slots of its rows move the other way. */
  lemma RowsStep(s: Cluster, c: int, a: Action, n: nat, i: nat)
    requires n > 0 && StepEnabled(s, Take(c, a)) && Sound(s, n) && i < |s.store.rows|
    ensures var u := StepDo(s, Take(c, a), n);
            |u.store.rows| == |s.store.rows|
            && u.store.rows[i] == s.store.rows[i].(capacity := s.store.rows[i].capacity
                                                   - Delta(s.store, s.schedulers[c], a, s.store.rows[i].worker))
            && 0 <= u.store.rows[i].capacity
  {
    hide Outstanding, InOrder, Once;
    hide NoneLost, Directed;
    var sched := s.schedulers[c];
    match a
    case Reserve(p, j) => ReserveRow(s, p, sched.queue[0].target, j, i, n);
    case GiveBack(t) =>
      assert Kept(s.store.rows, sched);
      GiveBackRow(s, sched.held[t].worker, sched.targets[t], t, i, n);
    case _ =>
  }

  /** All rows of a worker are in its partition and have the same capacity. */
  lemma SameCapacity(s: Cluster, i: nat, j: nat, n: nat)
    requires n > 0 && SlotsAdd(s) && RowsPlaced(s.store.rows, n) && i < |s.store.rows| && j < |s.store.rows|
    requires s.store.rows[i].worker == s.store.rows[j].worker
    ensures s.store.rows[i].capacity == s.store.rows[j].capacity && s.store.rows[i].pkey == s.store.rows[j].pkey
  {
    hide Outstanding;
  }

  lemma ReserveRow(s: Cluster, p: int, shard: int, j: nat, i: nat, n: nat)
    requires n > 0 && SlotsAdd(s) && RowsPlaced(s.store.rows, n) && i < |s.store.rows| && Offers(s.store.rows, p, shard, j)
    ensures var rows := s.store.rows; var w := rows[j].worker;
            SetCapacity(rows, p, w, rows[j].capacity - 1)[i]
            == rows[i].(capacity := rows[i].capacity - if rows[i].worker == w then 1 else 0)
    ensures 0 <= s.store.rows[i].capacity && (s.store.rows[i].worker == s.store.rows[j].worker ==> 0 < s.store.rows[i].capacity)
  {
    hide Outstanding;
    if s.store.rows[i].worker == s.store.rows[j].worker {
      SameCapacity(s, i, j, n);
    }
  }

  lemma GiveBackRow(s: Cluster, v: int, shard: int, task: int, i: nat, n: nat)
    requires n > 0 && SlotsAdd(s) && RowsPlaced(s.store.rows, n) && i < |s.store.rows| && HasShard(s.store.rows, v, shard)
    ensures var rows := s.store.rows; var u := Finished(s.store, v, task, v % n);
            |u.rows| == |rows| && u.rows[i] == rows[i].(capacity := rows[i].capacity + if rows[i].worker == v then 1 else 0)
    ensures 0 <= s.store.rows[i].capacity
  {
    hide Outstanding;
    var rows := s.store.rows;
    var j: nat :| j < |rows| && rows[j].worker == v && rows[j].shard == shard;
    CapacityFound(rows, v, v % n, j);
    var k: nat :| k < |rows| && rows[k].worker == v && rows[k].pkey == v % n && CapacityOf(rows, v, v % n).value == rows[k].capacity;
    if rows[i].worker == v {
      SameCapacity(s, i, k, n);
    }
  }

  lemma TakeSound(s: Cluster, c: int, a: Action, n: nat)
    requires n > 0 && Sound(s, n) && StepEnabled(s, Take(c, a))
    ensures Sound(StepDo(s, Take(c, a), n), n)
  {
    hide Outstanding, Enabled, Do, SlotsAdd, Kept, Indexed, RowsPlaced, SameRows;
    var u := StepDo(s, Take(c, a), n);
    StoreStep(s.store, s.schedulers[c], a, n);
    SchedulersKept(s, c, a, n);
    SlotsKept(s, c, a, n);
    IndexKept(s.store, u.store, n);
  }

  lemma IndexKept(s: Store, u: Store, n: nat)
    requires n > 0 && Indexed(s) && RowsPlaced(s.rows, n) && SameRows(s.rows, u.rows) && u.locations == s.locations
    ensures Indexed(u) && RowsPlaced(u.rows, n)
  {
  }

  lemma SchedulersKept(s: Cluster, c: int, a: Action, n: nat)
    requires n > 0 && Sound(s, n) && StepEnabled(s, Take(c, a))
    ensures var u := StepDo(s, Take(c, a), n); forall k :: k in u.schedulers ==> Kept(u.store.rows, u.schedulers[k])
  {
    hide Enabled, Do, SlotsAdd, Routed, InOrder, Once, NoneLost, Directed;
    var u := StepDo(s, Take(c, a), n);
    StoreStep(s.store, s.schedulers[c], a, n);
    OwnStep(s.store, s.schedulers[c], a, n);
    forall k | k in u.schedulers
      ensures Kept(u.store.rows, u.schedulers[k])
    {
      RoutedStays(s.store.rows, u.store.rows, u.schedulers[k]);
      DirectedStays(s.store.rows, u.store.rows, u.schedulers[k]);
    }
  }

  lemma SlotsKept(s: Cluster, c: int, a: Action, n: nat)
    requires n > 0 && Sound(s, n) && StepEnabled(s, Take(c, a))
    ensures SlotsAdd(StepDo(s, Take(c, a), n))
  {
    hide Outstanding, Enabled, Do, Delta, Kept;
    var u := StepDo(s, Take(c, a), n);
    StoreStep(s.store, s.schedulers[c], a, n);
    forall i | 0 <= i < |u.store.rows|
      ensures var row := u.store.rows[i];
              && row.worker in u.initial && 0 <= row.capacity
              && row.capacity + |Outstanding(u.schedulers, row.worker)| == u.initial[row.worker]
    {
      RowsStep(s, c, a, n, i);
      OutstandingStep(s, c, a, n, s.store.rows[i].worker);
    }
  }

  lemma InsertSound(s: Cluster, worker: int, capacity: nat, shard: int, n: nat)
    requires n > 0 && Sound(s, n) && StepEnabled(s, Insert(worker, capacity, shard))
    ensures Sound(StepDo(s, Insert(worker, capacity, shard), n), n)
  {
    var u := StepDo(s, Insert(worker, capacity, shard), n);
    forall k | k in u.schedulers
      ensures Kept(u.store.rows, u.schedulers[k])
    {
      RoutedStays(s.store.rows, u.store.rows, u.schedulers[k]);
      DirectedStays(s.store.rows, u.store.rows, u.schedulers[k]);
      hide InOrder, Once, NoneLost;
    }
    if worker !in s.initial {
      NothingOutstanding(s, worker, n);
    }
  }

  /** A worker without rows owes nothing. */
  lemma NothingOutstanding(s: Cluster, worker: int, n: nat)
    requires n > 0 && Sound(s, n) && worker !in s.initial
    ensures Outstanding(s.schedulers, worker) == {}
  {
    forall c, t | c in s.schedulers && t in s.schedulers[c].held
      ensures s.schedulers[c].held[t].worker in s.initial
    {
      assert HasShard(s.store.rows, s.schedulers[c].held[t].worker, s.schedulers[c].targets[t]);
    }
  }

  // ---- runs ----

  lemma {:induction false} RunSound(s: Cluster, steps: seq<ClusterStep>, last: Cluster, n: nat)
    requires n > 0 && Sound(s, n) && Run(s, steps, last, n)
    ensures Sound(last, n)
    decreases |steps|
  {
    hide Sound, StepEnabled, StepDo;
    if steps != [] {
      StepSound(s, steps[0], n);
      RunSound(StepDo(s, steps[0], n), steps[1..], last, n);
    }
  }

  /** The data that the calls of schedule on a scheduler asked for, in their order. */
  function AskedOf(steps: seq<ClusterStep>, c: int): seq<int> {
    if steps == [] then []
    else (if steps[0].Take? && steps[0].scheduler == c && steps[0].action.Submit? then [steps[0].action.target] else [])
         + AskedOf(steps[1..], c)
  }

  /** The rows that startServing inserted, in their order. */
  function InsertsOf(steps: seq<ClusterStep>): (r: seq<ClusterStep>)
    ensures forall i :: 0 <= i < |r| ==> r[i].Insert?
  {
    if steps == [] then [] else (if steps[0].Insert? then [steps[0]] else []) + InsertsOf(steps[1..])
  }

  // Between two states a scheduler has been asked for these.
  ghost predicate Asked(c: Scheduler, d: Scheduler, asked: seq<int>) {
    && d.taskIDs == c.taskIDs + |asked|
    && (forall t :: t in c.targets ==> t in d.targets && d.targets[t] == c.targets[t])
    && (forall t :: c.taskIDs <= t < d.taskIDs ==> t in d.targets && d.targets[t] == asked[t - c.taskIDs])
  }

  lemma AskedOnce(s: Cluster, step: ClusterStep, c: int, n: nat)
    requires n > 0 && Sound(s, n) && StepEnabled(s, step) && c in s.schedulers
    ensures c in StepDo(s, step, n).schedulers
    ensures Asked(s.schedulers[c], StepDo(s, step, n).schedulers[c], AskedOf([step], c))
  {
    hide SlotsAdd, Routed, Once, NoneLost, Directed, Indexed, RowsPlaced, Outstanding;
    assert [step][1..] == [];
    KeptOf(s, n, c);
    if step.Take? && step.scheduler == c {
      AskedByAction(s.store, s.schedulers[c], step.action, n);
    }
    hide Do, Enabled, InOrder;
  }

  lemma AskedByAction(s: Store, c: Scheduler, a: Action, n: nat)
    requires n > 0 && InOrder(c) && Enabled(s, c, a)
    ensures Asked(c, Do(s, c, a, n).1, if a.Submit? then [a.target] else [])
  {
  }

  lemma AskedThen(c: Scheduler, d: Scheduler, e: Scheduler, a: seq<int>, b: seq<int>)
    requires Asked(c, d, a) && Asked(d, e, b)
    ensures Asked(c, e, a + b)
  {
    forall t | c.taskIDs <= t < e.taskIDs
      ensures t in e.targets && e.targets[t] == (a + b)[t - c.taskIDs]
    {
      if t < d.taskIDs {
        assert t in d.targets;
      }
    }
  }

  lemma {:induction false} RunAsked(s: Cluster, steps: seq<ClusterStep>, last: Cluster, n: nat, c: int)
    requires n > 0 && Sound(s, n) && Run(s, steps, last, n) && c in s.schedulers
    ensures c in last.schedulers && Asked(s.schedulers[c], last.schedulers[c], AskedOf(steps, c))
    decreases |steps|
  {
    hide Sound, StepEnabled, StepDo, Asked;
    if steps == [] {
      AskedNothing(s.schedulers[c]);
    } else {
      var next := StepDo(s, steps[0], n);
      StepSound(s, steps[0], n);
      AskedOnce(s, steps[0], c, n);
      RunAsked(next, steps[1..], last, n, c);
      AskedThen(s.schedulers[c], next.schedulers[c], last.schedulers[c], AskedOf([steps[0]], c), AskedOf(steps[1..], c));
      AskedSplit(steps, c);
    }
  }

  lemma AskedNothing(c: Scheduler)
    ensures Asked(c, c, [])
  {
  }

  lemma AskedSplit(steps: seq<ClusterStep>, c: int)
    requires steps != []
    ensures AskedOf(steps, c) == AskedOf([steps[0]], c) + AskedOf(steps[1..], c)
  {
    assert [steps[0]][1..] == [];
  }

  // The rows that are new between two states are these inserts.
  ghost predicate RowsAre(rows: seq<ShardRow>, next: seq<ShardRow>, inserts: seq<ClusterStep>, n: nat)
    requires n > 0 && forall i :: 0 <= i < |inserts| ==> inserts[i].Insert?
  {
    && |next| == |rows| + |inserts|
    && (forall i :: 0 <= i < |rows| ==> next[i] == rows[i].(capacity := next[i].capacity))
    && (forall i :: 0 <= i < |inserts| ==>
          next[|rows| + i] == ShardRow(inserts[i].worker, next[|rows| + i].capacity, inserts[i].shard, inserts[i].worker % n))
  }

  // Every worker started with the capacity of its inserts.
  ghost predicate CapacitiesAre(initial: map<int, int>, next: map<int, int>, inserts: seq<ClusterStep>)
    requires forall i :: 0 <= i < |inserts| ==> inserts[i].Insert?
  {
    && (forall w :: w in initial ==> w in next && next[w] == initial[w])
    && (forall i :: 0 <= i < |inserts| ==> inserts[i].worker in next && next[inserts[i].worker] == inserts[i].capacity)
  }

  lemma {:induction false} RunInserts(s: Cluster, steps: seq<ClusterStep>, last: Cluster, n: nat)
    requires n > 0 && Sound(s, n) && Run(s, steps, last, n)
    ensures RowsAre(s.store.rows, last.store.rows, InsertsOf(steps), n)
    ensures CapacitiesAre(s.initial, last.initial, InsertsOf(steps))
    decreases |steps|
  {
    hide Sound, StepEnabled, StepDo, RowsAre, CapacitiesAre, SameRows;
    if steps == [] {
      NoInserts(s, n);
    } else {
      var next := StepDo(s, steps[0], n);
      StepSound(s, steps[0], n);
      RunInserts(next, steps[1..], last, n);
      OneInsert(s, steps[0], n);
      if steps[0].Take? {
        TakeThen(s.store.rows, next.store.rows, last.store.rows, InsertsOf(steps[1..]), n);
        assert [] + InsertsOf(steps[1..]) == InsertsOf(steps[1..]);
      } else {
        InsertsThen(s.store.rows, next.store.rows, last.store.rows, steps[0], InsertsOf(steps[1..]), n);
        InitialThen(s.initial, next.initial, last.initial, steps[0], InsertsOf(steps[1..]));
      }
    }
  }

  lemma NoInserts(s: Cluster, n: nat)
    requires n > 0
    ensures RowsAre(s.store.rows, s.store.rows, [], n) && CapacitiesAre(s.initial, s.initial, [])
  {
  }

  // What one step does to the rows and to the initial capacities.
  lemma OneInsert(s: Cluster, step: ClusterStep, n: nat)
    requires n > 0 && StepEnabled(s, step)
    ensures var u := StepDo(s, step, n);
            match step
            case Take(_, _) => SameRows(s.store.rows, u.store.rows) && u.initial == s.initial
            case Insert(w, capacity, shard) =>
              && u.store.rows == s.store.rows + [ShardRow(w, capacity, shard, w % n)]
              && u.initial == s.initial[w := capacity] && (w in s.initial ==> s.initial[w] == capacity)
  {
    hide Enabled, Do, Outstanding, SameRows;
    if step.Take? {
      StoreStep(s.store, s.schedulers[step.scheduler], step.action, n);
    }
  }

  lemma TakeThen(rows: seq<ShardRow>, next: seq<ShardRow>, last: seq<ShardRow>, more: seq<ClusterStep>, n: nat)
    requires n > 0 && forall i :: 0 <= i < |more| ==> more[i].Insert?
    requires SameRows(rows, next) && RowsAre(next, last, more, n)
    ensures RowsAre(rows, last, more, n)
  {
  }

  lemma InitialThen(initial: map<int, int>, next: map<int, int>, last: map<int, int>, step: ClusterStep, more: seq<ClusterStep>)
    requires step.Insert? && (forall i :: 0 <= i < |more| ==> more[i].Insert?)
    requires next == initial[step.worker := step.capacity] && CapacitiesAre(next, last, more)
    requires step.worker in initial ==> initial[step.worker] == step.capacity
    ensures CapacitiesAre(initial, last, [step] + more)
  {
    assert step.worker in next && next[step.worker] == step.capacity;
    forall i | 0 <= i < |[step] + more|
      ensures var x := ([step] + more)[i]; x.Insert? && x.worker in last && last[x.worker] == x.capacity
    {
      if i > 0 {
        assert ([step] + more)[i] == more[i - 1];
      }
    }
  }

  lemma InsertsThen(rows: seq<ShardRow>, next: seq<ShardRow>, last: seq<ShardRow>, step: ClusterStep, more: seq<ClusterStep>, n: nat)
    requires n > 0 && step.Insert? && (forall i :: 0 <= i < |more| ==> more[i].Insert?)
    requires next == rows + [ShardRow(step.worker, step.capacity, step.shard, step.worker % n)] && RowsAre(next, last, more, n)
    ensures RowsAre(rows, last, [step] + more, n)
  {
    forall i | 0 <= i < |[step] + more|
      ensures var x := ([step] + more)[i];
              x.Insert? && last[|rows| + i] == ShardRow(x.worker, last[|rows| + i].capacity, x.shard, x.worker % n)
    {
      if i > 0 {
        assert |rows| + i == |next| + (i - 1);
      } else {
        assert last[|rows|] == next[|rows|].(capacity := last[|rows|].capacity);
      }
    }
  }

  /** Over every run the Worker table holds exactly the rows inserted, each with its
      shard and in its worker's partition, and nothing that schedule was asked for
      is lost: the k-th call on a scheduler is its task k, and every task is still
      queued, or has a slot, or has been answered. */
  lemma SparkKeeps(s: Cluster, steps: seq<ClusterStep>, last: Cluster, n: nat, c: int)
    requires n > 0 && Init(s) && Run(s, steps, last, n) && c in s.schedulers
    ensures RowsAre([], last.store.rows, InsertsOf(steps), n)
    ensures CapacitiesAre(map[], last.initial, InsertsOf(steps))
    ensures c in last.schedulers && AllKept(last.schedulers[c], AskedOf(steps, c))
  {
    hide Sound, Asked, AllKept, Run, RowsAre, CapacitiesAre;
    InitSound(s, n);
    RunSound(s, steps, last, n);
    RunInserts(s, steps, last, n);
    RunAsked(s, steps, last, n, c);
    KeptOf(last, n, c);
    AllKeptIs(last.store.rows, last.schedulers[c], AskedOf(steps, c));
  }

  /** Every call is a task, with its data, that is queued, has a slot or an answer;
      and those that have been answered and announced are in the completion set. */
  ghost predicate AllKept(d: Scheduler, asked: seq<int>) {
    && d.taskIDs == |asked| && |d.queue| <= |asked|
    && (forall t :: t in d.targets <==> 0 <= t < |asked|)
    && (forall t :: 0 <= t < |asked| ==> d.targets[t] == asked[t])
    && (forall i :: 0 <= i < |d.queue| ==>
          d.queue[i] == Item(|asked| - |d.queue| + i, asked[|asked| - |d.queue| + i]))
    && (forall t :: 0 <= t < |asked| - |d.queue| ==> t in d.held || t in d.served)
    && (forall t :: t in d.completed <==> t in d.served && !At(d, t, Answered))
  }

  lemma KeptOf(s: Cluster, n: nat, c: int)
    requires n > 0 && Sound(s, n) && c in s.schedulers
    ensures Kept(s.store.rows, s.schedulers[c])
  {
  }

  lemma AllKeptIs(rows: seq<ShardRow>, d: Scheduler, asked: seq<int>)
    requires Kept(rows, d) && Asked(NewScheduler, d, asked)
    ensures AllKept(d, asked)
  {
    hide Routed, Once, Directed;
    forall i | 0 <= i < |d.queue|
      ensures d.queue[i] == Item(|asked| - |d.queue| + i, asked[|asked| - |d.queue| + i])
    {
      assert d.queue[i].task in d.targets;
    }
  }

  lemma {:induction false} SameSchedulers(s: Cluster, steps: seq<ClusterStep>, last: Cluster, n: nat)
    requires n > 0 && Run(s, steps, last, n)
    ensures last.schedulers.Keys == s.schedulers.Keys
    decreases |steps|
  {
    hide Enabled, Do, Outstanding;
    if steps != [] {
      SameSchedulers(StepDo(s, steps[0], n), steps[1..], last, n);
    }
  }

  lemma ReturnedServed(s: Cluster, steps: seq<ClusterStep>, last: Cluster, n: nat)
    requires n > 0 && Init(s) && Run(s, steps, last, n)
    ensures forall c, t :: c in last.schedulers && t in last.schedulers[c].returned ==>
              var sched := last.schedulers[c]; var asked := AskedOf(steps, c);
              0 <= t < |asked| && t in sched.served && HasShard(last.store.rows, sched.served[t], asked[t])
  {
    hide Sound, Once, Directed, HasShard, RowsAre, CapacitiesAre, Run;
    InitSound(s, n);
    RunSound(s, steps, last, n);
    SameSchedulers(s, steps, last, n);
    forall c, t | c in last.schedulers && t in last.schedulers[c].returned
      ensures var sched := last.schedulers[c]; var asked := AskedOf(steps, c);
              0 <= t < |asked| && t in sched.served && HasShard(last.store.rows, sched.served[t], asked[t])
    {
      SparkKeeps(s, steps, last, n, c);
      KeptOf(last, n, c);
    }
  }

  lemma InitSound(s: Cluster, n: nat)
    requires n > 0 && Init(s)
    ensures Sound(s, n)
  {
  }

  lemma StepSound(s: Cluster, step: ClusterStep, n: nat)
    requires n > 0 && Sound(s, n) && StepEnabled(s, step)
    ensures Sound(StepDo(s, step, n), n)
  {
    hide Sound, StepEnabled, StepDo;
    match step {
      case Insert(w, capacity, shard) => InsertSound(s, w, capacity, shard, n);
      case Take(c, a) => TakeSound(s, c, a, n);
    }
  }

  /** Over every run of any number of schedulers: a returned task was answered by
      a worker that holds the data that the call asked for; the index lists exactly the shards and
      partitions of the Worker table; each worker's free and outstanding slots add
      up to its initial capacity; and no task is called again once it has been
      answered, even if the answer comes before the task has left the queue. */
  lemma SparkSafety(s: Cluster, steps: seq<ClusterStep>, last: Cluster, n: nat)
    requires n > 0 && Init(s) && Run(s, steps, last, n)
    ensures forall c, t :: c in last.schedulers && t in last.schedulers[c].returned ==>
              var sched := last.schedulers[c]; var asked := AskedOf(steps, c);
              0 <= t < |asked| && t in sched.served && HasShard(last.store.rows, sched.served[t], asked[t])
    ensures Indexed(last.store)
    ensures forall shard, p :: p in PartitionsOf(last.store.locations, shard) <==>
              exists i :: 0 <= i < |last.store.rows| && last.store.rows[i].shard == shard && last.store.rows[i].pkey == p
    ensures SlotsAdd(last)
    ensures forall c :: c in last.schedulers && last.schedulers[c].queue != [] && !last.schedulers[c].sent ==>
              last.schedulers[c].queue[0].task !in last.schedulers[c].served
  {
    InitSound(s, n);
    RunSound(s, steps, last, n);
    ReturnedServed(s, steps, last, n);
    hide SlotsAdd, Outstanding, NoneLost, Directed;
    forall shard, p
      ensures p in PartitionsOf(last.store.locations, shard) <==>
              exists i :: 0 <= i < |last.store.rows| && last.store.rows[i].shard == shard && last.store.rows[i].pkey == p
    {
      var rows, locations := last.store.rows, last.store.locations;
      if p in PartitionsOf(locations, shard) {
        var i :| 0 <= i < |locations| && locations[i].shard == shard && locations[i].pkey == p;
        assert rows[i].shard == shard && rows[i].pkey == p;
      }
      if i :| 0 <= i < |rows| && rows[i].shard == shard && rows[i].pkey == p {
        assert locations[i] == Location(shard, p);
      }
    }
  }

  // ---- the threads in place ----

  /** SparkScheduler: every method is one step of one of its threads. */
  class SparkScheduler {
    const db: SparkDb
    const workerPartitions: nat
    var taskIDs: int
    var taskQueue: seq<Item>
    var targetPartitions: Option<set<int>>
    ghost var sent: bool
    var calls: map<int, Hold>
    var taskCompletionSet: set<int>
    ghost var returned: set<int>
    ghost var targets: map<int, int>
    ghost var served: map<int, int>

    ghost function View(): Scheduler
      reads this
    {
      Scheduler(taskIDs, taskQueue, targetPartitions, sent, calls, taskCompletionSet, returned, targets, served)
    }

    constructor (db: SparkDb, workerPartitions: nat)
      ensures this.db == db && this.workerPartitions == workerPartitions && View() == NewScheduler
    {
      this.db, this.workerPartitions := db, workerPartitions;
      taskIDs, taskQueue, targetPartitions, calls, taskCompletionSet := 0, [], None, map[], {};
      sent, returned, targets, served := false, {}, map[], map[];
    }

    // schedule, up to its wait.
    method SubmitTask(target: int) returns (task: int)
      requires workerPartitions > 0
      modifies this
      ensures task == old(taskIDs)
      ensures (db.View(), View()) == Do(old(db.View()), old(View()), Submit(target), workerPartitions)
    {
      task := taskIDs;
      taskIDs := taskIDs + 1;
      taskQueue := taskQueue + [Item(task, target)];
      targets := targets[task := target];
    }

    // selectWorker: the partitions that hold the data of the first task.
    method FindPartitions()
      requires workerPartitions > 0 && Enabled(db.View(), View(), LookUp)
      modifies this
      ensures (db.View(), View()) == Do(old(db.View()), old(View()), LookUp, workerPartitions)
    {
      var pkeys := db.SelectDataShardPartition(taskQueue[0].target);
      targetPartitions := Some(pkeys);
    }

    // selectWorker: one round of its polling loop, in the partition it drew.
    method Poll(pkey: int) returns (found: bool)
      requires workerPartitions > 0 && taskQueue != [] && !sent && taskQueue[0].task !in calls
      requires targetPartitions.Some? && pkey in targetPartitions.value
      requires forall i :: 0 <= i < |db.rows| ==> db.rows[i].worker != -1
      modifies this, db
      ensures !found ==> db.View() == old(db.View()) && View() == old(View())
      ensures found ==> exists row: nat ::
                (Enabled(old(db.View()), old(View()), Reserve(pkey, row))
                 && (db.View(), View()) == Do(old(db.View()), old(View()), Reserve(pkey, row), workerPartitions))
    {
      ghost var s, c := db.View(), View();
      var item := taskQueue[0];
      var worker := db.SelectSparkWorker(pkey, item.target);
      found := worker != -1;
      if found {
        calls := calls[item.task := Hold(worker, Chosen)];
        ghost var row: nat :| Offers(s.rows, pkey, item.target, row) && worker == s.rows[row].worker
          && db.View() == s.(rows := SetCapacity(s.rows, pkey, worker, s.rows[row].capacity - 1));
        assert Enabled(s, c, Reserve(pkey, row));
      }
    }

    // assignTaskToWorker: the call is out, its task still first in the queue.
    method SendTask()
      requires workerPartitions > 0 && Enabled(db.View(), View(), Send)
      modifies this
      ensures (db.View(), View()) == Do(old(db.View()), old(View()), Send, workerPartitions)
    {
      var task := taskQueue[0].task;
      calls := calls[task := Hold(calls[task].worker, Called)];
      sent := true;
    }

    // The end of the round in processTaskQueue.
    method PopTask()
      requires workerPartitions > 0 && Enabled(db.View(), View(), Pop)
      modifies this
      ensures (db.View(), View()) == Do(old(db.View()), old(View()), Pop, workerPartitions)
    {
      taskQueue := taskQueue[1..];
      targetPartitions := None;
      sent := false;
    }

    // finishTask, first half: tell the caller.
    method AnnounceTask(task: int)
      requires workerPartitions > 0 && Enabled(db.View(), View(), Announce(task))
      modifies this
      ensures (db.View(), View()) == Do(old(db.View()), old(View()), Announce(task), workerPartitions)
    {
      calls := calls[task := Hold(calls[task].worker, Announced)];
      taskCompletionSet := taskCompletionSet + {task};
    }

    // finishTask, second half: give the slot back.
    method GiveBackSlot(task: int)
      requires workerPartitions > 0 && Enabled(db.View(), View(), GiveBack(task))
      modifies this, db
      ensures (db.View(), View()) == Do(old(db.View()), old(View()), GiveBack(task), workerPartitions)
    {
      var worker := calls[task].worker;
      var status := db.FinishWorkerTask(worker, task, worker % workerPartitions);
      calls := calls - {task};
    }

    // schedule, after its wait: it returns only if its own task is in the set.
    method AwaitTask(task: int) returns (done: bool)
      requires workerPartitions > 0
      modifies this
      ensures done == Enabled(old(db.View()), old(View()), Return(task))
      ensures done ==> (db.View(), View()) == Do(old(db.View()), old(View()), Return(task), workerPartitions)
      ensures !done ==> View() == old(View())
    {
      done := task in taskCompletionSet;
      if done {
        returned := returned + {task};
      }
    }
  }
}
