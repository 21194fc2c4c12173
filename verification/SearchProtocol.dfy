/**
 The threads of pfind as a state machine: `main` and n workers, one step for each lock region and for each access
 to shared data outside one. A signal reaches a thread only if that thread is waiting; otherwise it is lost.
 */
module SearchProtocol {
  import opened Options
  import opened SearchTree

  /** n worker threads search `tree` for names that contain `term`. */
  datatype Config = Config(n: nat, tree: Tree, term: string)

  ghost predicate IsConfig(c: Config) {
    c.n >= 1 && IsTree(c.tree)
  }

  /** An entry of the directories queue: an opened directory and its path. */
  datatype Opened = Opened(dir: nat, path: string)

  /** Where a worker is in `thread_func` and `scan_dir`; the line numbers are those of hw04/pfind.c. */
  datatype Pc =
    | Uncreated
    | Registering                                  // created, before it locks thread_initializer (135)
    | AwaitStart                                   // blocked on start_work (145)
    | Released                                     // signalled, before it holds thread_initializer again (145-148)
    | FirstCheck                                   // before the first dequeue_dir (150)
    | Scanning                                     // at the readdir loop of my_thread_entry->dir (204)
    | Holding(child: nat, childPath: string)       // has opened a subdirectory, before it locks queues_access (243)
    // has dequeued a sleeper: stage 0, 1, 2 before 252, 253, 254
    | Passing(child: nat, childPath: string, sleeper: nat, stage: nat)
    | Retiring                                     // found no directory, before it locks queues_access (164)
    | Asleep                                       // in thread_func, blocked on its own condition variable (177)
    | Woken                                        // signalled, before it holds queues_access again (177)
    | Dying                                        // has counted itself failed after an errno, before line 274
    | Exited(failed: bool)

  /** A worker and its THREAD_ENTRY; `err` is its errno being non-zero. */
  datatype Worker = Worker(pc: Pc, dir: Option<nat>, path: string, err: bool)

  /** Where `main` is. */
  datatype MainPc =
    | Creating(next: nat)                          // creates workers 0 .. n-2 (468)
    | CreatingLast                                 // holds thread_initializer, before the last creation (482)
    | BeforeInitWait                               // holds thread_initializer (489)
    | AwaitInit                                    // blocked on all_initialized (489)
    | WokenInit                                    // signalled, before it holds thread_initializer again
    | BeforeQueueLock                              // before it locks queues_access (501)
    | Broadcasting                                 // holds queues_access, before the broadcast (504)
    | BeforeSleepWait                              // holds queues_access (507)
    | AwaitSleep                                   // blocked on all_sleep (507)
    | WokenSleep                                   // signalled, before it holds queues_access again
    | Signalling(next: nat)                        // walks thread_q (519-525)
    | Joining(next: nat)                           // joins the workers (528)
    | Finished(reported: nat)                      // has printed the count (545)
    | Aborted                                      // has returned because every thread failed (511)

  /**
   The shared state. `cursor` is the position of each directory stream, and `log` the directories in the order
   in which `scan_dir` took them up.
   */
  datatype State = State(
    main: MainPc, workers: seq<Worker>, dirQ: seq<Opened>, threadQ: seq<nat>, cursor: seq<nat>,
    initialized: nat, failed: nat, done: bool, found: nat, log: seq<nat>)

  datatype Actor = Main | Thread(id: nat)

  predicate HoldsStartMutex(m: MainPc) {
    m.CreatingLast? || m.BeforeInitWait?
  }

  predicate HoldsQueueMutex(m: MainPc) {
    m.Broadcasting? || m.BeforeSleepWait?
  }

  // ---------------------------------------------------------------- well-typed states

  predicate WorkerTyped(c: Config, k: Worker) {
    && (k.dir.Some? ==> k.dir.value < |c.tree.items|)
    && (k.pc.Holding? || k.pc.Passing? ==> k.pc.child < |c.tree.items|)
    && (k.pc.Passing? ==> k.pc.sleeper < c.n && k.pc.stage <= 2)
    && (k.pc.Scanning? || k.pc.Holding? || k.pc.Passing? ==> k.dir.Some?)
  }

  predicate CursorsTyped(t: Tree, cursor: seq<nat>) {
    |cursor| == |t.items| && forall d :: 0 <= d < |cursor| ==> cursor[d] <= |t.items[d]|
  }

  /** Indices are in range. */
  predicate Typed(c: Config, s: State) {
    && |s.workers| == c.n
    && CursorsTyped(c.tree, s.cursor)
    && (forall w :: 0 <= w < c.n ==> WorkerTyped(c, s.workers[w]))
    && (forall i :: 0 <= i < |s.dirQ| ==> s.dirQ[i].dir < |c.tree.items|)
    && (forall i :: 0 <= i < |s.threadQ| ==> s.threadQ[i] < c.n)
    && (s.main.Creating? ==> s.main.next < c.n)
    && (s.main.Joining? ==> s.main.next <= c.n)
  }

  // ---------------------------------------------------------------- signals

  /** `pthread_cond_signal` on a worker's own condition variable. */
  function SignalWorker(s: State, w: nat): State
    requires w < |s.workers|
  {
    if s.workers[w].pc.Asleep? then s.(workers := s.workers[w := s.workers[w].(pc := Woken)]) else s
  }

  function SignalAllInitialized(s: State): State {
    if s.main.AwaitInit? then s.(main := WokenInit) else s
  }

  function SignalAllSleep(s: State): State {
    if s.main.AwaitSleep? then s.(main := WokenSleep) else s
  }

  /** `pthread_cond_broadcast(&start_work)` */
  function Wake(k: Worker): Worker {
    if k.pc.AwaitStart? then k.(pc := Released) else k
  }

  function Broadcast(workers: seq<Worker>): (r: seq<Worker>)
    ensures |r| == |workers| && forall w :: 0 <= w < |workers| ==> r[w] == Wake(workers[w])
  {
    seq(|workers|, w requires 0 <= w < |workers| => Wake(workers[w]))
  }

  // ---------------------------------------------------------------- steps of main

  function Set(s: State, w: nat, k: Worker): State
    requires w < |s.workers|
  {
    s.(workers := s.workers[w := k])
  }

  function Create(s: State, w: nat): State
    requires w < |s.workers|
  {
    Set(s, w, s.workers[w].(pc := Registering))
  }

  function NextMain(c: Config, s: State): State
    requires IsConfig(c) && Typed(c, s)
  {
    match s.main
    case Creating(i) => if i < c.n - 1 then Create(s, i).(main := Creating(i + 1)) else s.(main := CreatingLast)
    case CreatingLast => Create(s, c.n - 1).(main := BeforeInitWait)
    case BeforeInitWait => s.(main := AwaitInit)
    case WokenInit => s.(main := if s.failed == c.n then Aborted else BeforeQueueLock)
    case BeforeQueueLock => s.(main := Broadcasting)
    case Broadcasting => s.(main := BeforeSleepWait, workers := Broadcast(s.workers))
    case BeforeSleepWait => s.(main := AwaitSleep)
    case WokenSleep => if s.failed == c.n then s.(main := Aborted) else s.(main := Signalling(0), done := true)
    case Signalling(i) =>
      if i < |s.threadQ| then SignalWorker(s, s.threadQ[i]).(main := Signalling(i + 1)) else s.(main := Joining(0))
    case Joining(i) => if i < c.n then s.(main := Joining(i + 1)) else s.(main := Finished(s.found))
    case _ => s
  }

  // ---------------------------------------------------------------- steps of a worker

  /** Lines 137-145: the last worker to register signals main; every worker goes to wait for the start. */
  function Register(c: Config, s: State, w: nat): State
    requires w < |s.workers|
  {
    var s1 := Set(s, w, s.workers[w].(pc := AwaitStart)).(initialized := s.initialized + 1);
    if s1.initialized + s1.failed == c.n then SignalAllInitialized(s1) else s1
  }

  /** `scan_dir` begins on a directory: errno is cleared. */
  function StartScan(s: State, w: nat, e: Opened): State
    requires w < |s.workers|
  {
    Set(s, w, Worker(Scanning, Some(e.dir), e.path, false)).(log := s.log + [e.dir])
  }

  /** `dequeue_dir` under the lock, and what the worker does with its answer (150-160, 282-292). */
  function TakeDirectory(s: State, w: nat): State
    requires w < |s.workers|
  {
    if s.dirQ == [] then Set(s, w, s.workers[w].(pc := Retiring))
    else StartScan(s, w, s.dirQ[0]).(dirQ := s.dirQ[1..])
  }

  /** The worker that has just read an entry: a subdirectory is opened, and a failure to open one sets errno. */
  function ReaderAfter(k: Worker, item: Item): Worker {
    if Skipped(item) then k else
    match item.kind
    case Openable(id) => k.(pc := Holding(id, k.path + item.name + "/"))
    case Unopenable => k.(err := true)
    case Regular => k
  }

  /** One turn of the readdir loop, up to the lock for a subdirectory (204-243, 258-267). */
  function ReadEntry(c: Config, s: State, w: nat, d: nat): State
    requires Typed(c, s) && w < c.n && d < |c.tree.items| && s.cursor[d] < |c.tree.items[d]|
  {
    var item := c.tree.items[d][s.cursor[d]];
    s.(cursor := s.cursor[d := s.cursor[d] + 1],
       workers := s.workers[w := ReaderAfter(s.workers[w], item)],
       found := s.found + if IsMatch(item, c.term) then 1 else 0)
  }

  function Scan(c: Config, s: State, w: nat): State
    requires Typed(c, s) && w < c.n && s.workers[w].pc.Scanning?
  {
    var d := s.workers[w].dir.value;
    if s.cursor[d] < |c.tree.items[d]| then ReadEntry(c, s, w, d)
    else if s.workers[w].err then Set(s, w, s.workers[w].(pc := Dying)).(failed := s.failed + 1)
    else TakeDirectory(s, w)
  }

  /** Lines 243-249: hand the new directory to a sleeper, or queue it when none sleeps. */
  function Deliver(s: State, w: nat): State
    requires w < |s.workers| && s.workers[w].pc.Holding?
  {
    var k := s.workers[w];
    if s.threadQ == [] then Set(s, w, k.(pc := Scanning)).(dirQ := s.dirQ + [Opened(k.pc.child, k.pc.childPath)])
    else Set(s, w, k.(pc := Passing(k.pc.child, k.pc.childPath, s.threadQ[0], 0))).(threadQ := s.threadQ[1..])
  }

  /** Lines 252-254, outside the lock: the sleeper's directory, its path, and the signal. */
  function Pass(s: State, w: nat): State
    requires w < |s.workers| && s.workers[w].pc.Passing? && s.workers[w].pc.sleeper < |s.workers|
  {
    var k := s.workers[w];
    var t := k.pc.sleeper;
    if k.pc.stage == 0 then
      Set(Set(s, t, s.workers[t].(dir := Some(k.pc.child))), w, k.(pc := k.pc.(stage := 1)))
    else if k.pc.stage == 1 then
      Set(Set(s, t, s.workers[t].(path := k.pc.childPath)), w, k.(pc := k.pc.(stage := 2)))
    else
      Set(SignalWorker(s, t), w, k.(pc := Scanning))
  }

  /** Lines 164-177: join the sleepers; the last one signals main. */
  function FallAsleep(s: State, w: nat): State
    requires w < |s.workers|
  {
    var s1 := Set(s, w, s.workers[w].(pc := Asleep, dir := None, path := "")).(threadQ := s.threadQ + [w]);
    if |s1.threadQ| == s1.initialized then SignalAllSleep(s1) else s1
  }

  /** Lines 179-189. */
  function Resume(s: State, w: nat): State
    requires w < |s.workers| && s.workers[w].pc.Woken?
  {
    var k := s.workers[w];
    if s.done then Set(s, w, k.(pc := Exited(false)))
    else if k.dir.Some? then StartScan(s, w, Opened(k.dir.value, k.path))
    else s
  }

  /** Lines 274-278. */
  function Die(c: Config, s: State, w: nat): State
    requires w < |s.workers|
  {
    var s1 := Set(s, w, s.workers[w].(pc := Exited(true)));
    if s1.failed == c.n then SignalAllSleep(s1) else s1
  }

  function NextWorker(c: Config, s: State, w: nat): State
    requires Typed(c, s) && w < c.n
  {
    match s.workers[w].pc
    case Registering => Register(c, s, w)
    case Released => Set(s, w, s.workers[w].(pc := FirstCheck))
    case FirstCheck => TakeDirectory(s, w)
    case Scanning => Scan(c, s, w)
    case Holding(_, _) => Deliver(s, w)
    case Passing(_, _, _, _) => Pass(s, w)
    case Retiring => FallAsleep(s, w)
    case Woken => Resume(s, w)
    case Dying => Die(c, s, w)
    case _ => s
  }

  // ---------------------------------------------------------------- scheduling

  predicate MainEnabled(c: Config, s: State)
    requires Typed(c, s)
  {
    match s.main
    case AwaitInit => false
    case AwaitSleep => false
    case Joining(i) => i < c.n ==> s.workers[i].pc.Exited?
    case Finished(_) => false
    case Aborted => false
    case _ => true
  }

  predicate WorkerEnabled(c: Config, s: State, w: nat)
    requires Typed(c, s) && w < c.n
  {
    var k := s.workers[w];
    !s.main.Finished? && !s.main.Aborted? &&
    match k.pc
    case Registering => !HoldsStartMutex(s.main)
    case Released => !HoldsStartMutex(s.main)
    case FirstCheck => !HoldsQueueMutex(s.main)
    case Scanning => s.cursor[k.dir.value] < |c.tree.items[k.dir.value]| || k.err || !HoldsQueueMutex(s.main)
    case Holding(_, _) => !HoldsQueueMutex(s.main)
    case Passing(_, _, _, _) => true
    case Retiring => !HoldsQueueMutex(s.main)
    case Woken => !HoldsQueueMutex(s.main) && (s.done || k.dir.Some?)
    case Dying => true
    case _ => false
  }

  predicate Enabled(c: Config, s: State, a: Actor)
    requires Typed(c, s)
  {
    match a
    case Main => MainEnabled(c, s)
    case Thread(w) => w < c.n && WorkerEnabled(c, s, w)
  }

  function Next(c: Config, s: State, a: Actor): State
    requires IsConfig(c) && Typed(c, s) && Enabled(c, s, a)
  {
    match a
    case Main => NextMain(c, s)
    case Thread(w) => NextWorker(c, s, w)
  }

  function Init(c: Config): State {
    State(Creating(0), seq(c.n, _ => Worker(Uncreated, None, "", false)), [Opened(0, c.tree.rootPath)], [],
          seq(|c.tree.items|, _ => 0), 0, 0, false, 0, [])
  }

  lemma ReadKeepsTyped(c: Config, s: State, w: nat, d: nat)
    requires IsConfig(c) && Typed(c, s) && w < c.n && s.workers[w].pc.Scanning?
    requires s.workers[w].dir == Some(d) && s.cursor[d] < |c.tree.items[d]|
    ensures Typed(c, ReadEntry(c, s, w, d))
  {
    assert ListsProperly(c.tree, d, s.cursor[d]);
  }

  lemma PassKeepsTyped(c: Config, s: State, w: nat)
    requires Typed(c, s) && w < c.n && s.workers[w].pc.Passing?
    ensures Typed(c, Pass(s, w))
  {
  }

  lemma ScanKeepsTyped(c: Config, s: State, w: nat)
    requires IsConfig(c) && Typed(c, s) && w < c.n && s.workers[w].pc.Scanning?
    ensures Typed(c, Scan(c, s, w))
  {
    var d := s.workers[w].dir.value;
    if s.cursor[d] < |c.tree.items[d]| {
      ReadKeepsTyped(c, s, w, d);
    }
  }

  lemma MainKeepsTyped(c: Config, s: State)
    requires IsConfig(c) && Typed(c, s) && MainEnabled(c, s)
    ensures Typed(c, NextMain(c, s))
  {
  }

  lemma QueueStepsKeepTyped(c: Config, s: State, w: nat)
    requires Typed(c, s) && w < c.n
    ensures s.workers[w].pc.Holding? ==> Typed(c, Deliver(s, w))
    ensures s.workers[w].pc.FirstCheck? ==> Typed(c, TakeDirectory(s, w))
    ensures s.workers[w].pc.Woken? ==> Typed(c, Resume(s, w))
  {
  }

  lemma TakeKeepsTyped(c: Config, s: State, w: nat)
    requires Typed(c, s) && w < c.n
    ensures Typed(c, TakeDirectory(s, w))
  {
  }

  lemma StartStepsKeepTyped(c: Config, s: State, w: nat)
    requires Typed(c, s) && w < c.n
    ensures Typed(c, Register(c, s, w)) && Typed(c, Set(s, w, s.workers[w].(pc := FirstCheck)))
  {
  }

  lemma EndStepsKeepTyped(c: Config, s: State, w: nat)
    requires Typed(c, s) && w < c.n
    ensures Typed(c, FallAsleep(s, w)) && Typed(c, Die(c, s, w))
  {
  }

  lemma NextKeepsTyped(c: Config, s: State, a: Actor)
    requires IsConfig(c) && Typed(c, s) && Enabled(c, s, a)
    ensures Typed(c, Next(c, s, a))
  {
    match a
    case Main => MainKeepsTyped(c, s);
    case Thread(w) =>
      QueueStepsKeepTyped(c, s, w);
      StartStepsKeepTyped(c, s, w);
      EndStepsKeepTyped(c, s, w);
      if s.workers[w].pc.Scanning? {
        ScanKeepsTyped(c, s, w);
      } else if s.workers[w].pc.Passing? {
        PassKeepsTyped(c, s, w);
      }
  }

  /** The state that a schedule leads to, if every actor in it was able to move when its turn came. */
  function Execute(c: Config, schedule: seq<Actor>): (r: Option<State>)
    requires IsConfig(c)
    ensures r.Some? ==> Typed(c, r.value)
  {
    if schedule == [] then Some(Init(c)) else
    match Execute(c, schedule[..|schedule| - 1])
    case None => None
    case Some(s) =>
      var a := schedule[|schedule| - 1];
      if !Enabled(c, s, a) then None else
      NextKeepsTyped(c, s, a);
      Some(Next(c, s, a))
  }

  /** No actor can move. */
  predicate Stuck(c: Config, s: State)
    requires Typed(c, s)
  {
    !MainEnabled(c, s) && forall w :: 0 <= w < c.n ==> !WorkerEnabled(c, s, w)
  }
}
