/** Schedulers, and the threads of every polling worker, over the two tables:
    each thread step is one action, and the actions interleave in any order. */
module WorkerProtocol {
  import opened Database

  datatype Executor = Idle | Holding(task: int) | Exited

  // Where endServing stands.
  datatype Phase = Serving | Stopping | Drained | Stopped | Returned

  /** One worker: what its dispatcher has fetched but not pushed yet, its queue,
      its executors, its flags, and in order what it has fetched, pushed, popped
      and finished so far. */
  datatype Proc = Proc(pkey: int, batch: seq<int>, queue: seq<int>, execs: seq<Executor>,
                       dispatcherDone: bool, phase: Phase,
                       fetched: seq<int>, pushed: seq<int>, popped: seq<int>, finished: seq<int>)
  {
    predicate StopDispatch() { phase != Serving }
    predicate Stop() { phase == Stopped || phase == Returned }
  }

  datatype World = World(tables: Tables, procs: map<int, Proc>)

  datatype Action =
    | Schedule(worker: int, task: int)             // SelectSinglePartitionedTaskWorker
    | Fetch(worker: int, topk: nat, ids: seq<int>) // WorkerSelectTask by the dispatcher
    | Push(worker: int)                            // one task into the queue
    | DispatcherExit(worker: int)
    | Pop(worker: int, exec: nat)
    | Finish(worker: int, exec: nat)               // WorkerUpdateTask by an executor
    | ExecutorExit(worker: int, exec: nat)
    | BeginStop(worker: int)                       // stopDispatch_ = true
    | SeeEmpty(worker: int)                        // dispatcher joined, queue seen empty
    | SetStop(worker: int)                         // stop_ = true
    | Return(worker: int)                          // executors joined

  // ---- one worker's actions on the tables and on itself ----

  predicate CanExec(p: Proc, exec: nat) { exec < |p.execs| }

  /** When a thread may take its next step. */
  ghost predicate ProcEnabled(t: Tables, p: Proc, a: Action) {
    match a
    case Fetch(w, topk, ids) => !p.dispatcherDone && p.batch == [] && Selection(t, p.pkey, w, topk, ids)
    case Push(_) => p.batch != []
    case DispatcherExit(_) => !p.dispatcherDone && p.batch == [] && p.StopDispatch()
    case Pop(_, e) => CanExec(p, e) && p.execs[e] == Idle && !p.Stop() && p.queue != []
    case Finish(_, e) => CanExec(p, e) && p.execs[e].Holding?
    case ExecutorExit(_, e) => CanExec(p, e) && p.execs[e] == Idle && p.Stop()
    case BeginStop(_) => p.phase == Serving
    case SeeEmpty(_) => p.phase == Stopping && p.dispatcherDone && p.queue == []
    case SetStop(_) => p.phase == Drained
    case Return(_) => p.phase == Stopped && forall e :: 0 <= e < |p.execs| ==> p.execs[e] == Exited
    case Schedule(_, _) => false
  }

  function ProcDo(t: Tables, p: Proc, a: Action): (Tables, Proc) {
    match a
    case Fetch(w, topk, ids) => (SetRunning(t, p.pkey, w, ids), p.(batch := ids, fetched := p.fetched + ids))
    case Push(_) =>
      if p.batch == [] then (t, p)
      else (t, p.(batch := p.batch[1..], queue := p.queue + [p.batch[0]], pushed := p.pushed + [p.batch[0]]))
    case DispatcherExit(_) => (t, p.(dispatcherDone := true))
    case Pop(_, e) =>
      if !CanExec(p, e) || p.queue == [] then (t, p)
      else (t, p.(queue := p.queue[1..], execs := p.execs[e := Holding(p.queue[0])], popped := p.popped + [p.queue[0]]))
    case Finish(w, e) =>
      if !CanExec(p, e) || !p.execs[e].Holding? then (t, p)
      else (Completed(t, p.pkey, w, p.execs[e].task),
            p.(execs := p.execs[e := Idle], finished := p.finished + [p.execs[e].task]))
    case ExecutorExit(_, e) => if !CanExec(p, e) then (t, p) else (t, p.(execs := p.execs[e := Exited]))
    case BeginStop(_) => (t, p.(phase := Stopping))
    case SeeEmpty(_) => (t, p.(phase := Drained))
    case SetStop(_) => (t, p.(phase := Stopped))
    case Return(_) => (t, p.(phase := Returned))
    case Schedule(_, _) => (t, p)
  }

  // ---- the world ----

  ghost predicate Enabled(s: World, a: Action) {
    match a
    case Schedule(w, task) => w in s.procs && Available(s.tables, s.procs[w].pkey, w) && task !in s.tables.tasks
    case _ => a.worker in s.procs && ProcEnabled(s.tables, s.procs[a.worker], a)
  }

  function Do(s: World, a: Action): World {
    if a.worker !in s.procs then s
    else if a.Schedule? then s.(tables := Reserve(s.tables, s.procs[a.worker].pkey, a.worker, a.task))
    else
      var (t, p) := ProcDo(s.tables, s.procs[a.worker], a);
      World(t, s.procs[a.worker := p])
  }

  /** Fresh workers and no tasks: their capacities are the initial ones. */
  ghost predicate Init(s: World, capacity: map<int, nat>) {
    && s.tables.tasks == map[]
    && s.procs.Keys == s.tables.workers.Keys == capacity.Keys
    && forall w :: w in s.procs ==>
         var p := s.procs[w];
         && s.tables.workers[w] == WorkerRow(capacity[w], p.pkey)
         && p.batch == [] && p.queue == [] && p.fetched == [] && p.pushed == [] && p.popped == [] && p.finished == []
         && !p.dispatcherDone && p.phase == Serving
         && forall e :: 0 <= e < |p.execs| ==> p.execs[e] == Idle
  }

  /** Any run: any sequence of actions, each enabled when it is taken. */
  ghost predicate Run(s: World, actions: seq<Action>, last: World)
    decreases |actions|
  {
    if actions == [] then last == s
    else Enabled(s, actions[0]) && Run(Do(s, actions[0]), actions[1..], last)
  }

  // ---- the invariant ----

  function HeldBy(x: Executor, task: int): nat {
    if x == Holding(task) then 1 else 0
  }

  /** How many executors hold a task. */
  function Held(execs: seq<Executor>, task: int): nat {
    if execs == [] then 0 else HeldBy(execs[0], task) + Held(execs[1..], task)
  }

  function Count(tasks: seq<int>, task: int): nat { multiset(tasks)[task] }

  /** How often a task lies in its worker's hand: fetched, queued or held. */
  function InHand(p: Proc, task: int): nat {
    Count(p.batch, task) + Count(p.queue, task) + Held(p.execs, task)
  }

  predicate RowIs(t: Tables, task: int, worker: int, state: TaskState) {
    task in t.tasks && t.tasks[task].worker == worker && t.tasks[task].state == state
  }

  /** The tasks a worker still owes: rows that are not COMPLETE. */
  function Open(t: Tables, worker: int): set<int> {
    set task | task in t.tasks && t.tasks[task].worker == worker && t.tasks[task].state != Complete
  }

  /** Each task is in one place: a RUNNING row is in its worker's hand exactly
      once, a COMPLETE one among its finished tasks exactly once, and a PENDING
      one in neither. */
  ghost predicate Placed(t: Tables, w: int, p: Proc) {
    && (forall task :: InHand(p, task) == if RowIs(t, task, w, Running) then 1 else 0)
    && (forall task :: Count(p.finished, task) == if RowIs(t, task, w, Complete) then 1 else 0)
    && (forall task :: Count(p.pushed, task) == Count(p.queue, task) + Held(p.execs, task) + Count(p.finished, task))
  }

  /** First in, first out: the queue holds what was pushed and not popped, the
      batch what was fetched and not pushed, each in order; and a single executor
      finishes tasks in the order it popped them. */
  predicate InTurn(p: Proc) {
    && p.fetched == p.pushed + p.batch
    && p.pushed == p.popped + p.queue
    && (|p.execs| == 1 ==> p.popped == p.finished + HeldTasks(p.execs))
  }

  /** The tasks that the executors hold. */
  function HeldTasks(execs: seq<Executor>): seq<int> {
    if execs == [] then [] else (if execs[0].Holding? then [execs[0].task] else []) + HeldTasks(execs[1..])
  }

  ghost predicate Flagged(p: Proc) {
    && (p.phase in {Drained, Stopped, Returned} ==> p.dispatcherDone && p.queue == [])
    && (p.dispatcherDone ==> p.batch == [] && p.StopDispatch())
    && (forall e :: 0 <= e < |p.execs| && p.execs[e] == Exited ==> p.Stop())
    && (p.phase == Returned ==> forall e :: 0 <= e < |p.execs| ==> p.execs[e] == Exited)
  }

  ghost predicate Funded(t: Tables, w: int, p: Proc, capacity: nat) {
    && w in t.workers && t.workers[w].pkey == p.pkey
    && 0 <= t.workers[w].capacity
    && t.workers[w].capacity + |Open(t, w)| == capacity
  }

  ghost predicate Rows(t: Tables, w: int, p: Proc) {
    forall task :: task in t.tasks && t.tasks[task].worker == w ==> t.tasks[task].pkey == p.pkey
  }

  ghost predicate WorkerSound(t: Tables, w: int, p: Proc, capacity: nat) {
    Rows(t, w, p) && Placed(t, w, p) && InTurn(p) && Flagged(p) && Funded(t, w, p, capacity)
  }

  ghost predicate Sound(s: World, capacity: map<int, nat>) {
    && s.procs.Keys == s.tables.workers.Keys == capacity.Keys
    && (forall task :: task in s.tables.tasks ==> s.tables.tasks[task].worker in s.procs)
    && (forall w :: w in s.procs ==> WorkerSound(s.tables, w, s.procs[w], capacity[w]))
  }

  // ---- one step ----

  lemma {:induction false} HeldAt(execs: seq<Executor>, e: nat, x: Executor, task: int)
    requires e < |execs|
    ensures HeldBy(execs[e], task) <= Held(execs, task)
    ensures Held(execs[e := x], task) == Held(execs, task) - HeldBy(execs[e], task) + HeldBy(x, task)
  {
    if e == 0 {
      assert execs[e := x][1..] == execs[1..];
    } else {
      HeldAt(execs[1..], e - 1, x, task);
      assert execs[e := x][1..] == execs[1..][e - 1 := x];
    }
  }

  lemma DistinctOnce(ids: seq<int>, x: int)
    requires NoRepeats(ids)
    ensures Count(ids, x) == if x in ids then 1 else 0
  {
    if ids != [] {
      DistinctOnce(ids[1..], x);
      assert ids == [ids[0]] + ids[1..];
    }
  }

  lemma HeadCount(s: seq<int>, task: int)
    requires s != []
    ensures Count(s, task) == (if s[0] == task then 1 else 0) + Count(s[1..], task)
  {
    assert s == [s[0]] + s[1..];
  }

  lemma LastCount(s: seq<int>, x: int, task: int)
    ensures Count(s + [x], task) == Count(s, task) + if x == task then 1 else 0
  {
  }

  lemma FetchSound(t: Tables, w: int, p: Proc, capacity: nat, topk: nat, ids: seq<int>)
    requires WorkerSound(t, w, p, capacity) && ProcEnabled(t, p, Fetch(w, topk, ids))
    ensures WorkerSound(SetRunning(t, p.pkey, w, ids), w, p.(batch := ids, fetched := p.fetched + ids), capacity)
  {
    hide SetRunning;
    var u := SetRunning(t, p.pkey, w, ids);
    var q := p.(batch := ids, fetched := p.fetched + ids);
    assert p.pushed + [] + ids == p.pushed + ids;
    FetchTables(t, w, p, ids);
    forall task
      ensures InHand(q, task) == if RowIs(u, task, w, Running) then 1 else 0
    {
      DistinctOnce(ids, task);
      assert InHand(p, task) == Count(p.queue, task) + Held(p.execs, task);
    }
  }

  /** Fetching pending tasks: their rows change, nothing else. */
  lemma FetchTables(t: Tables, w: int, p: Proc, ids: seq<int>)
    requires Rows(t, w, p) && NoRepeats(ids) && forall i :: 0 <= i < |ids| ==> IsPending(t, p.pkey, w, ids[i])
    ensures var u := SetRunning(t, p.pkey, w, ids);
            && Rows(u, w, p) && Open(u, w) == Open(t, w) && u.workers == t.workers
            && (forall task :: RowIs(u, task, w, Running) <==> task in ids || RowIs(t, task, w, Running))
            && (forall task :: RowIs(u, task, w, Complete) <==> RowIs(t, task, w, Complete))
            && (forall task :: task in ids ==> !RowIs(t, task, w, Running))
  {
    hide SetRunning;
    Claimed(t, p.pkey, w, ids);
    var u := SetRunning(t, p.pkey, w, ids);
    assert forall task :: task in ids ==> IsPending(t, p.pkey, w, task);
    forall task
      ensures task in Open(u, w) <==> task in Open(t, w)
    {
      assert task in ids ==> IsPending(t, p.pkey, w, task);
    }
  }

  // The tables owe a worker the same whatever its threads do with the tasks.
  lemma SameOwed(t: Tables, w: int, p: Proc, q: Proc, capacity: nat)
    requires Rows(t, w, p) && Funded(t, w, p, capacity) && q.pkey == p.pkey
    ensures Rows(t, w, q) && Funded(t, w, q, capacity)
  {
    hide Open;
  }

  lemma PushSound(t: Tables, w: int, p: Proc, capacity: nat)
    requires WorkerSound(t, w, p, capacity) && p.batch != []
    ensures WorkerSound(t, w, ProcDo(t, p, Push(w)).1, capacity)
  {
    hide Funded, Rows, RowIs, Held, Count;
    var q := ProcDo(t, p, Push(w)).1;
    SameOwed(t, w, p, q, capacity);
    forall task
      ensures InHand(q, task) == InHand(p, task)
      ensures Count(q.pushed, task) == Count(q.queue, task) + Held(q.execs, task) + Count(q.finished, task)
    {
      HeadCount(p.batch, task);
      LastCount(p.queue, p.batch[0], task);
      LastCount(p.pushed, p.batch[0], task);
    }
  }

  /** A change of executors and queue that moves tasks but neither drops nor
      copies any. */
  lemma MoveSound(t: Tables, w: int, p: Proc, q: Proc, capacity: nat)
    requires WorkerSound(t, w, p, capacity) && q == p.(queue := q.queue, execs := q.execs, popped := q.popped) && Flagged(q) && InTurn(q)
    requires forall task :: Count(q.queue, task) + Held(q.execs, task) == Count(p.queue, task) + Held(p.execs, task)
    ensures WorkerSound(t, w, q, capacity)
  {
    hide Funded, Rows, RowIs, Held, Count;
    SameOwed(t, w, p, q, capacity);
    assert forall task :: InHand(q, task) == InHand(p, task);
  }

  lemma PopSound(t: Tables, w: int, p: Proc, capacity: nat, e: nat)
    requires WorkerSound(t, w, p, capacity) && ProcEnabled(t, p, Pop(w, e))
    ensures WorkerSound(t, w, ProcDo(t, p, Pop(w, e)).1, capacity)
  {
    hide Funded, Rows, RowIs, Held, Count, Placed;
    var q := ProcDo(t, p, Pop(w, e)).1;
    forall task
      ensures Count(q.queue, task) + Held(q.execs, task) == Count(p.queue, task) + Held(p.execs, task)
    {
      HeldAt(p.execs, e, Holding(p.queue[0]), task);
      HeadCount(p.queue, task);
    }
    PopInTurn(t, w, p, e);
    MoveSound(t, w, p, q, capacity);
  }

  lemma PopInTurn(t: Tables, w: int, p: Proc, e: nat)
    requires InTurn(p) && ProcEnabled(t, p, Pop(w, e))
    ensures InTurn(ProcDo(t, p, Pop(w, e)).1)
  {
    assert p.popped + [p.queue[0]] + p.queue[1..] == p.popped + p.queue;
    if |p.execs| == 1 {
      assert p.execs == [Idle] && HeldTasks([Idle]) == [] by { assert [Idle][1..] == []; }
      var x := Holding(p.queue[0]);
      assert HeldTasks([x]) == [p.queue[0]] by { assert [x][1..] == []; }
      assert p.finished + [] + [p.queue[0]] == p.finished + [p.queue[0]];
    }
  }

  lemma ExitSound(t: Tables, w: int, p: Proc, capacity: nat, e: nat)
    requires WorkerSound(t, w, p, capacity) && ProcEnabled(t, p, ExecutorExit(w, e))
    ensures WorkerSound(t, w, ProcDo(t, p, ExecutorExit(w, e)).1, capacity)
  {
    var q := ProcDo(t, p, ExecutorExit(w, e)).1;
    forall task
      ensures Held(q.execs, task) == Held(p.execs, task)
    {
      HeldAt(p.execs, e, Exited, task);
    }
    MoveSound(t, w, p, q, capacity);
  }

  lemma FinishSound(t: Tables, w: int, p: Proc, capacity: nat, e: nat)
    requires WorkerSound(t, w, p, capacity) && ProcEnabled(t, p, Finish(w, e))
    ensures var (u, q) := ProcDo(t, p, Finish(w, e)); WorkerSound(u, w, q, capacity)
  {
    hide Completed, Rows, Held, Count, Open;
    var task := p.execs[e].task;
    var (u, q) := ProcDo(t, p, Finish(w, e));
    HeldAt(p.execs, e, Idle, task);
    HoldsOne(p, e);
    assert InHand(p, task) >= 1 && RowIs(t, task, w, Running);
    FundedIn(t, w, p, capacity);
    FinishTables(t, w, p, task);
    FinishFunds(t, u, w, p, q, capacity, task);
    forall id
      ensures InHand(q, id) == InHand(p, id) - if id == task then 1 else 0
      ensures Count(q.finished, id) == Count(p.finished, id) + if id == task then 1 else 0
      ensures Count(q.pushed, id) == Count(q.queue, id) + Held(q.execs, id) + Count(q.finished, id)
    {
      HeldAt(p.execs, e, Idle, id);
      LastCount(p.finished, task, id);
    }
  }

  lemma HoldsOne(p: Proc, e: nat)
    requires e < |p.execs| && p.execs[e].Holding?
    ensures HeldBy(p.execs[e], p.execs[e].task) == 1
  {
  }

  lemma FundedIn(t: Tables, w: int, p: Proc, capacity: nat)
    requires Funded(t, w, p, capacity)
    ensures w in t.workers && t.workers[w].pkey == p.pkey
  {
  }

  lemma FinishFunds(t: Tables, u: Tables, w: int, p: Proc, q: Proc, capacity: nat, task: int)
    requires Funded(t, w, p, capacity) && Rows(u, w, p) && q.pkey == p.pkey
    requires Open(u, w) == Open(t, w) - {task} && task in Open(t, w)
    requires w in u.workers && u.workers[w] == t.workers[w].(capacity := t.workers[w].capacity + 1)
    ensures Funded(u, w, q, capacity) && Rows(u, w, q)
  {
    hide Open;
  }

  /** Completing a running task: its row changes, a slot comes back, nothing else. */
  lemma FinishTables(t: Tables, w: int, p: Proc, task: int)
    requires Rows(t, w, p) && RowIs(t, task, w, Running) && w in t.workers && t.workers[w].pkey == p.pkey
    ensures var u := Completed(t, p.pkey, w, task);
            && Rows(u, w, p) && Open(u, w) == Open(t, w) - {task} && task in Open(t, w)
            && w in u.workers && u.workers[w] == t.workers[w].(capacity := t.workers[w].capacity + 1)
            && (forall id, state :: RowIs(u, id, w, state) <==> if id == task then state == Complete else RowIs(t, id, w, state))
  {
    var u := Completed(t, p.pkey, w, task);
    assert u.tasks == t.tasks[task := t.tasks[task].(state := Complete)];
  }

  /** A worker's own step keeps it sound. */
  lemma OwnStep(t: Tables, w: int, p: Proc, capacity: nat, a: Action)
    requires WorkerSound(t, w, p, capacity) && a.worker == w && ProcEnabled(t, p, a)
    ensures var (u, q) := ProcDo(t, p, a); WorkerSound(u, w, q, capacity)
  {
    match a
    case Fetch(_, topk, ids) => FetchSound(t, w, p, capacity, topk, ids);
    case Push(_) => PushSound(t, w, p, capacity);
    case Pop(_, e) => PopSound(t, w, p, capacity, e);
    case Finish(_, e) => FinishSound(t, w, p, capacity, e);
    case ExecutorExit(_, e) => ExitSound(t, w, p, capacity, e);
    case _ =>
  }

  /** Nothing in the tables changes for a worker. */
  ghost predicate SameFor(t: Tables, u: Tables, v: int) {
    && (v in u.workers <==> v in t.workers) && (v in t.workers ==> u.workers[v] == t.workers[v])
    && (forall task :: task in t.tasks && t.tasks[task].worker == v ==> task in u.tasks && u.tasks[task] == t.tasks[task])
    && (forall task :: task in u.tasks && u.tasks[task].worker == v ==> task in t.tasks && u.tasks[task] == t.tasks[task])
  }

  lemma OtherStep(t: Tables, u: Tables, v: int, p: Proc, capacity: nat)
    requires WorkerSound(t, v, p, capacity) && SameFor(t, u, v)
    ensures WorkerSound(u, v, p, capacity)
  {
    forall task
      ensures task in Open(u, v) <==> task in Open(t, v)
    {
    }
    assert Open(u, v) == Open(t, v);
    assert forall task, state :: RowIs(u, task, v, state) <==> RowIs(t, task, v, state);
  }

  lemma ScheduleSound(t: Tables, w: int, p: Proc, capacity: nat, task: int)
    requires WorkerSound(t, w, p, capacity) && Available(t, p.pkey, w) && task !in t.tasks
    ensures WorkerSound(Reserve(t, p.pkey, w, task), w, p, capacity)
  {
    hide InHand, Flagged;
    var u := Reserve(t, p.pkey, w, task);
    ReserveOpens(t, p.pkey, w, task);
    forall id, state | state != Pending
      ensures RowIs(u, id, w, state) <==> RowIs(t, id, w, state)
    {
    }
  }

  lemma ReserveOpens(t: Tables, pkey: int, w: int, task: int)
    requires Available(t, pkey, w) && task !in t.tasks
    ensures task !in Open(t, w) && Open(Reserve(t, pkey, w, task), w) == Open(t, w) + {task}
  {
  }

  /** An action of one worker, or a reservation for it, leaves the others' rows alone. */
  lemma Apart(s: World, a: Action, v: int)
    requires Enabled(s, a) && v != a.worker
    ensures SameFor(s.tables, Do(s, a).tables, v)
  {
    if a.Fetch? {
      Claimed(s.tables, s.procs[a.worker].pkey, a.worker, a.ids);
    }
  }

  /** Every action keeps every worker sound. */
  lemma StepSound(s: World, a: Action, capacity: map<int, nat>)
    requires Sound(s, capacity) && Enabled(s, a)
    ensures Sound(Do(s, a), capacity)
  {
    var u := Do(s, a);
    var w := a.worker;
    hide WorkerSound, Rows, Placed, Flagged, Funded, SetRunning, Completed;
    forall v | v in u.procs
      ensures WorkerSound(u.tables, v, u.procs[v], capacity[v])
    {
      if v != w {
        Apart(s, a, v);
        OtherStep(s.tables, u.tables, v, s.procs[v], capacity[v]);
      } else if a.Schedule? {
        ScheduleSound(s.tables, w, s.procs[w], capacity[w], a.task);
      } else {
        OwnStep(s.tables, w, s.procs[w], capacity[w], a);
      }
    }
    KeysKept(s, a);
  }

  lemma KeysKept(s: World, a: Action)
    requires Enabled(s, a) && s.procs.Keys == s.tables.workers.Keys
    requires forall task :: task in s.tables.tasks ==> s.tables.tasks[task].worker in s.procs
    ensures var u := Do(s, a);
            && u.procs.Keys == s.procs.Keys && u.tables.workers.Keys == s.tables.workers.Keys
            && forall task :: task in u.tables.tasks ==> u.tables.tasks[task].worker in u.procs
  {
    if a.Fetch? {
      Claimed(s.tables, s.procs[a.worker].pkey, a.worker, a.ids);
    }
  }

  lemma InitSound(s: World, capacity: map<int, nat>)
    requires Init(s, capacity)
    ensures Sound(s, capacity)
  {
    forall w | w in s.procs
      ensures WorkerSound(s.tables, w, s.procs[w], capacity[w])
    {
      NothingHeld(s.procs[w].execs);
      assert Open(s.tables, w) == {};
    }
  }

  lemma NothingHeld(execs: seq<Executor>)
    requires forall e :: 0 <= e < |execs| ==> !execs[e].Holding?
    ensures forall task :: Held(execs, task) == 0
  {
  }

  // ---- runs ----

  /** Over every interleaving: each task is in exactly one place, and a worker's
      free slots and unfinished tasks add up to what it started with. */
  lemma {:induction false} RunSound(s: World, actions: seq<Action>, last: World, capacity: map<int, nat>)
    requires Sound(s, capacity) && Run(s, actions, last)
    ensures Sound(last, capacity)
    decreases |actions|
  {
    hide Sound, Enabled, Do;
    if actions != [] {
      StepSound(s, actions[0], capacity);
      RunSound(Do(s, actions[0]), actions[1..], last, capacity);
    }
  }

  // ---- what holds after any run ----

  lemma HeldTasksCount(execs: seq<Executor>, task: int)
    ensures multiset(HeldTasks(execs))[task] == Held(execs, task)
  {
  }

  lemma {:induction false} OnceEach(s: seq<int>, owners: set<int>)
    requires forall x :: multiset(s)[x] <= if x in owners then 1 else 0
    ensures |s| <= |owners|
    decreases |s|
  {
    if s != [] {
      HeadCount(s, s[0]);
      forall x
        ensures multiset(s[1..])[x] <= if x in owners - {s[0]} then 1 else 0
      {
        HeadCount(s, x);
      }
      OnceEach(s[1..], owners - {s[0]});
    }
  }

  /** A reachable worker never promises more than it started with: its free slots,
      and the tasks fetched, queued and held together, are within the initial
      capacity. */
  lemma NeverOverbooked(s: World, actions: seq<Action>, last: World, capacity: map<int, nat>, w: int)
    requires Init(s, capacity) && Run(s, actions, last) && w in last.procs
    ensures Sound(last, capacity)
    ensures var p := last.procs[w];
            && 0 <= last.tables.workers[w].capacity <= capacity[w]
            && last.tables.workers[w].capacity + |Open(last.tables, w)| == capacity[w]
            && |p.batch| + |p.queue| + |HeldTasks(p.execs)| <= capacity[w]
  {
    InitSound(s, capacity);
    RunSound(s, actions, last, capacity);
    var p := last.procs[w];
    var all := p.batch + p.queue + HeldTasks(p.execs);
    forall task
      ensures multiset(all)[task] <= if task in Open(last.tables, w) then 1 else 0
    {
      HeldTasksCount(p.execs, task);
      assert multiset(all)[task] == InHand(p, task);
    }
    OnceEach(all, Open(last.tables, w));
  }

  /** The tasks that the Fetch actions of a worker brought, in their order. */
  function FetchedBy(actions: seq<Action>, w: int): seq<int> {
    if actions == [] then []
    else (if actions[0].Fetch? && actions[0].worker == w then actions[0].ids else []) + FetchedBy(actions[1..], w)
  }

  lemma {:induction false} RunFetches(s: World, actions: seq<Action>, last: World, w: int)
    requires Run(s, actions, last) && w in s.procs
    ensures w in last.procs && last.procs[w].fetched == s.procs[w].fetched + FetchedBy(actions, w)
    decreases |actions|
  {
    hide Enabled, SetRunning, Completed, Reserve;
    if actions != [] {
      RunFetches(Do(s, actions[0]), actions[1..], last, w);
      var now := if actions[0].Fetch? && actions[0].worker == w then actions[0].ids else [];
      assert Do(s, actions[0]).procs[w].fetched == s.procs[w].fetched + now;
      assert s.procs[w].fetched + now + FetchedBy(actions[1..], w) == s.procs[w].fetched + (now + FetchedBy(actions[1..], w));
    } else {
      assert s.procs[w].fetched + [] == s.procs[w].fetched;
    }
  }

  /** Over every interleaving the queue of a worker is first in, first out: what the
      executors popped, then the queue, then the rest of the batch are the tasks
      fetched, in the order in which the database gave them; and a worker with a
      single executor finishes them in that order. */
  lemma FirstInFirstOut(s: World, actions: seq<Action>, last: World, capacity: map<int, nat>, w: int)
    requires Init(s, capacity) && Run(s, actions, last) && w in s.procs
    ensures w in last.procs
    ensures var p := last.procs[w];
            && p.popped + p.queue + p.batch == FetchedBy(actions, w)
            && (|p.execs| == 1 ==> p.finished + HeldTasks(p.execs) == p.popped)
  {
    hide Enabled, Rows, Placed, Flagged, Funded;
    InitSound(s, capacity);
    RunSound(s, actions, last, capacity);
    RunFetches(s, actions, last, w);
    assert [] + FetchedBy(actions, w) == FetchedBy(actions, w);
  }

  /** When endServing has returned, nothing is lost: every task the dispatcher
      ever pushed was finished exactly once and is COMPLETE, nothing is left in
      hand, and as many tasks were finished as were dispatched. */
  lemma ShutdownComplete(s: World, actions: seq<Action>, last: World, capacity: map<int, nat>, w: int)
    requires Init(s, capacity) && Run(s, actions, last) && w in last.procs && last.procs[w].phase == Returned
    ensures var p := last.procs[w];
            && (forall task :: multiset(p.finished)[task] == multiset(p.pushed)[task] == if task in p.pushed then 1 else 0)
            && (forall task :: task in p.pushed <==> RowIs(last.tables, task, w, Complete))
            && (forall task :: !RowIs(last.tables, task, w, Running))
            && |p.finished| == |p.pushed|
  {
    hide WorkerSound;
    InitSound(s, capacity);
    RunSound(s, actions, last, capacity);
    EndsClean(last.tables, w, last.procs[w], capacity[w]);
  }

  lemma SomeIn(s: seq<int>)
    requires s != []
    ensures exists x :: Count(s, x) > 0
  {
    HeadCount(s, s[0]);
    assert Count(s, s[0]) > 0;
  }

  lemma {:induction false} SameLength(a: seq<int>, b: seq<int>)
    requires forall x :: multiset(a)[x] == multiset(b)[x]
    ensures |a| == |b|
    decreases |a|
  {
    if a == [] {
      if b != [] {
        SomeIn(b);
      }
    } else {
      HeadCount(a, a[0]);
      assert a[0] in multiset(b);
      var i :| 0 <= i < |b| && b[i] == a[0];
      var rest := b[..i] + b[i + 1..];
      forall x
        ensures multiset(a[1..])[x] == multiset(rest)[x]
      {
        HeadCount(a, x);
        assert b == b[..i] + [b[i]] + b[i + 1..];
      }
      SameLength(a[1..], rest);
    }
  }

  lemma EndsClean(t: Tables, w: int, p: Proc, capacity: nat)
    requires WorkerSound(t, w, p, capacity) && p.phase == Returned
    ensures forall task :: multiset(p.finished)[task] == multiset(p.pushed)[task] == if task in p.pushed then 1 else 0
    ensures forall task :: task in p.pushed <==> RowIs(t, task, w, Complete)
    ensures forall task :: !RowIs(t, task, w, Running)
    ensures |p.finished| == |p.pushed|
  {
    NothingHeld(p.execs);
    forall task
      ensures multiset(p.finished)[task] == multiset(p.pushed)[task] && InHand(p, task) == 0
    {
      assert Count(p.pushed, task) == Count(p.queue, task) + Held(p.execs, task) + Count(p.finished, task);
    }
    SameLength(p.finished, p.pushed);
  }

  // ---- the threads in place ----

  /** MockPollWorker: every method is one step of one of its threads. */
  class PollWorker {
    const id: int
    const pkey: int
    const topk: nat
    const db: Db
    var batch: seq<int>
    var queue: seq<int>
    var execs: seq<Executor>
    var dispatcherDone: bool
    var phase: Phase
    ghost var fetched: seq<int>
    ghost var pushed: seq<int>
    ghost var popped: seq<int>
    ghost var finished: seq<int>

    ghost function View(): Proc
      reads this
    {
      Proc(pkey, batch, queue, execs, dispatcherDone, phase, fetched, pushed, popped, finished)
    }

    constructor (id: int, pkey: int, topk: nat, executors: nat, db: Db)
      ensures this.id == id && this.pkey == pkey && this.topk == topk && this.db == db
      ensures View() == Proc(pkey, [], [], seq(executors, i => Idle), false, Serving, [], [], [], [])
    {
      this.id, this.pkey, this.topk, this.db := id, pkey, topk, db;
      batch, queue, execs := [], [], seq(executors, i => Idle);
      dispatcherDone, phase := false, Serving;
      fetched, pushed, popped, finished := [], [], [], [];
    }

    // The dispatcher asks the database for tasks.
    method FetchTasks()
      requires !dispatcherDone && batch == []
      modifies this, db
      ensures exists ids :: ProcEnabled(old(db.View()), old(View()), Fetch(id, topk, ids))
                            && (db.View(), View()) == ProcDo(old(db.View()), old(View()), Fetch(id, topk, ids))
    {
      var ids := db.WorkerSelectTask(pkey, id, topk);
      batch := ids;
      fetched := fetched + ids;
      assert ProcEnabled(old(db.View()), old(View()), Fetch(id, topk, ids));
    }

    // The dispatcher pushes one of them.
    method PushTask()
      requires ProcEnabled(db.View(), View(), Push(id))
      modifies this
      ensures (db.View(), View()) == ProcDo(old(db.View()), old(View()), Push(id))
    {
      var task := batch[0];
      queue := queue + [task];
      pushed := pushed + [task];
      batch := batch[1..];
    }

    method StopDispatching()
      requires ProcEnabled(db.View(), View(), DispatcherExit(id))
      modifies this
      ensures (db.View(), View()) == ProcDo(old(db.View()), old(View()), DispatcherExit(id))
    {
      dispatcherDone := true;
    }

    // An executor, woken with the lock held: it takes a task, leaves, or goes on waiting.
    method Wake(e: nat)
      requires e < |execs| && execs[e] == Idle
      modifies this
      ensures View() == if old(View()).Stop() then ProcDo(old(db.View()), old(View()), ExecutorExit(id, e)).1
                        else if old(queue) != [] then ProcDo(old(db.View()), old(View()), Pop(id, e)).1
                        else old(View())
    {
      var stop := phase == Stopped || phase == Returned;
      if !stop && |queue| > 0 {
        var task := queue[0];
        queue := queue[1..];
        execs := execs[e := Holding(task)];
        popped := popped + [task];
      } else if stop {
        execs := execs[e := Exited];
      }
    }

    // The executor reports its task.
    method FinishTask(e: nat)
      requires ProcEnabled(db.View(), View(), Finish(id, e))
      modifies this, db
      ensures (db.View(), View()) == ProcDo(old(db.View()), old(View()), Finish(id, e))
    {
      var task := execs[e].task;
      var status := db.WorkerUpdateTask(pkey, id, task, Complete);
      finished := finished + [task];
      execs := execs[e := Idle];
    }

    // endServing, up to its next wait; it answers whether that wait is over.
    method EndServing() returns (moved: bool)
      modifies this
      ensures moved ==> ProcEnabled(old(db.View()), old(View()), EndAction(id, old(phase)))
                        && (db.View(), View()) == ProcDo(old(db.View()), old(View()), EndAction(id, old(phase)))
      ensures !moved ==> View() == old(View()) && !ProcEnabled(old(db.View()), old(View()), EndAction(id, old(phase)))
    {
      match phase {
        case Serving => phase := Stopping; return true;
        case Stopping =>
          if dispatcherDone && |queue| == 0 { phase := Drained; return true; }
          return false;
        case Drained => phase := Stopped; return true;
        case Stopped =>
          var i := 0;
          while i < |execs|
            invariant 0 <= i <= |execs| && phase == old(phase) && View() == old(View())
            invariant forall e :: 0 <= e < i ==> execs[e] == Exited
          {
            if execs[i] != Exited { return false; }
            i := i + 1;
          }
          phase := Returned;
          return true;
        case Returned => return false;
      }
    }
  }

  function EndAction(w: int, phase: Phase): Action {
    match phase
    case Serving => BeginStop(w)
    case Stopping => SeeEmpty(w)
    case Drained => SetStop(w)
    case _ => Return(w)
  }
}
