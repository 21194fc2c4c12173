/** What holds in every reachable state of the search, in groups. */
module SearchInvariant {
  import opened Options
  import opened Sums
  import opened SearchTree
  import opened SearchProtocol
  import opened SearchLedger

  // ---------------------------------------------------------------- how many have registered, how many have failed

  function RegisteredBit(k: Worker): nat {
    if k.pc.Uncreated? || k.pc.Registering? then 0 else 1
  }

  function FailedBit(k: Worker): nat {
    if k.pc.Dying? || k.pc == Exited(true) then 1 else 0
  }

  function RegisteredBits(workers: seq<Worker>): (bits: seq<nat>)
    ensures |bits| == |workers| && forall w :: 0 <= w < |bits| ==> bits[w] == RegisteredBit(workers[w])
  {
    seq(|workers|, w requires 0 <= w < |workers| => RegisteredBit(workers[w]))
  }

  function FailedBits(workers: seq<Worker>): (bits: seq<nat>)
    ensures |bits| == |workers| && forall w :: 0 <= w < |bits| ==> bits[w] == FailedBit(workers[w])
  {
    seq(|workers|, w requires 0 <= w < |workers| => FailedBit(workers[w]))
  }

  ghost predicate Counted(s: State) {
    s.initialized == Sum(RegisteredBits(s.workers)) && s.failed == Sum(FailedBits(s.workers))
  }

  // ---------------------------------------------------------------- where main and the workers are

  predicate Young(pc: Pc) {
    pc.Registering? || pc.AwaitStart?
  }

  predicate Started(pc: Pc) {
    !pc.Uncreated? && !Young(pc)
  }

  predicate Gone(pc: Pc) {
    pc.Dying? || pc == Exited(true)
  }

  /** Nothing has been searched yet. */
  ghost predicate Fresh(c: Config, s: State) {
    && s.dirQ == [Opened(0, c.tree.rootPath)] && s.threadQ == [] && s.log == []
    && s.cursor == seq(|c.tree.items|, _ => 0)
    && s.found == 0 && s.failed == 0 && !s.done
    && forall w :: 0 <= w < |s.workers| ==> s.workers[w].dir == None
  }

  /** All workers sleep, in the queue. */
  ghost predicate Quiet(c: Config, s: State) {
    |s.threadQ| == c.n && s.failed == 0 && forall w :: 0 <= w < |s.workers| ==> s.workers[w].pc.Asleep?
  }

  /** The stage of the whole program, by where main is. */
  ghost predicate Phase(c: Config, s: State) {
    && |s.workers| == c.n
    && match s.main
       case Creating(i) =>
         Fresh(c, s) && i < c.n && forall w :: 0 <= w < c.n ==>
           if w < i then Young(s.workers[w].pc) else s.workers[w].pc.Uncreated?
       case CreatingLast =>
         Fresh(c, s) && forall w :: 0 <= w < c.n ==>
           if w < c.n - 1 then Young(s.workers[w].pc) else s.workers[w].pc.Uncreated?
       case BeforeInitWait => Fresh(c, s) && s.initialized < c.n && forall w :: 0 <= w < c.n ==> Young(s.workers[w].pc)
       case AwaitInit => Fresh(c, s) && s.initialized < c.n && forall w :: 0 <= w < c.n ==> Young(s.workers[w].pc)
       case WokenInit => Fresh(c, s) && forall w :: 0 <= w < c.n ==> s.workers[w].pc.AwaitStart?
       case BeforeQueueLock => Fresh(c, s) && forall w :: 0 <= w < c.n ==> s.workers[w].pc.AwaitStart?
       case Broadcasting => Fresh(c, s) && forall w :: 0 <= w < c.n ==> s.workers[w].pc.AwaitStart?
       case BeforeSleepWait => Fresh(c, s) && forall w :: 0 <= w < c.n ==>
         s.workers[w].pc.Released? || s.workers[w].pc.FirstCheck?
       case AwaitSleep =>
         && !s.done && |s.threadQ| < c.n
         && (forall w :: 0 <= w < c.n ==> Started(s.workers[w].pc) && s.workers[w].pc != Exited(false))
         && (s.failed == c.n ==> exists w :: 0 <= w < c.n && s.workers[w].pc.Dying?)
       case WokenSleep => !s.done
         && (Quiet(c, s) || (s.failed == c.n && forall w :: 0 <= w < c.n ==> Gone(s.workers[w].pc)))
       case Signalling(i) =>
         && s.done && s.failed == 0 && |s.threadQ| == c.n && i <= c.n
         && (forall w :: 0 <= w < c.n ==>
           s.workers[w].pc.Asleep? || s.workers[w].pc.Woken? || s.workers[w].pc == Exited(false))
         && (forall j :: 0 <= j < c.n ==> s.threadQ[j] < c.n && (j < i <==> !s.workers[s.threadQ[j]].pc.Asleep?))
       case Joining(i) =>
         && s.done && s.failed == 0 && |s.threadQ| == c.n && i <= c.n
         && (forall w :: 0 <= w < c.n ==> s.workers[w].pc.Woken? || s.workers[w].pc == Exited(false))
         && (forall w :: 0 <= w < i ==> s.workers[w].pc == Exited(false))
       case Finished(reported) =>
         && s.done && s.failed == 0 && |s.threadQ| == c.n && reported == s.found
         && (forall w :: 0 <= w < c.n ==> s.workers[w].pc == Exited(false))
       case Aborted => !s.done && s.failed == c.n && forall w :: 0 <= w < c.n ==> Gone(s.workers[w].pc)
  }

  // ---------------------------------------------------------------- the sleepers

  ghost predicate PassesTo(k: Worker, w: nat) {
    k.pc.Passing? && k.pc.sleeper == w
  }

  /** A worker that a directory is being passed to: blocked, out of the queue, and its entry filled in so far. */
  ghost predicate ReceiverReady(workers: seq<Worker>, threadQ: seq<nat>, u: nat)
    requires u < |workers|
  {
    workers[u].pc.Passing? ==>
      var pc := workers[u].pc;
      && pc.sleeper < |workers| && pc.sleeper !in threadQ
      && workers[pc.sleeper].pc.Asleep?
      && (workers[pc.sleeper].dir == if pc.stage == 0 then None else Some(pc.child))
      && (pc.stage >= 2 ==> workers[pc.sleeper].path == pc.childPath)
  }

  ghost predicate Awaited(workers: seq<Worker>, threadQ: seq<nat>, w: nat) {
    w in threadQ || exists u: nat :: u < |workers| && PassesTo(workers[u], w)
  }

  ghost predicate Sleepers(workers: seq<Worker>, threadQ: seq<nat>, done: bool) {
    && (forall i, j :: 0 <= i < j < |threadQ| ==> threadQ[i] != threadQ[j])
    && (forall i :: 0 <= i < |threadQ| ==> threadQ[i] < |workers| && workers[threadQ[i]].dir == None)
    && (!done ==> forall i :: 0 <= i < |threadQ| ==> workers[threadQ[i]].pc.Asleep?)
    && (forall u: nat :: u < |workers| ==> ReceiverReady(workers, threadQ, u))
    && (forall u: nat, v: nat, w: nat :: u < |workers| && v < |workers| && u != v && PassesTo(workers[u], w) ==>
      !PassesTo(workers[v], w))
    && (forall w: nat :: w < |workers| && workers[w].pc.Asleep? ==> Awaited(workers, threadQ, w))
    && (!done ==> forall w: nat :: w < |workers| && workers[w].pc.Woken? ==> workers[w].dir.Some?)
  }

  // ---------------------------------------------------------------- paths

  /** Directories travel with their own paths. */
  predicate WorkerPaths(t: Tree, k: Worker)
    requires |t.links| == |t.items|
  {
    && (k.pc.Scanning? || k.pc.Holding? || k.pc.Passing? || k.pc.Woken? ==> k.dir.Some? ==>
      k.path == PathOf(t, k.dir.value))
    && (k.pc.Holding? || k.pc.Passing? ==> k.pc.childPath == PathOf(t, k.pc.child))
  }

  ghost predicate Paths(t: Tree, workers: seq<Worker>, dirQ: seq<Opened>) {
    && |t.links| == |t.items|
    && (forall w :: 0 <= w < |workers| ==> WorkerPaths(t, workers[w]))
    && (forall i :: 0 <= i < |dirQ| ==> dirQ[i].path == PathOf(t, dirQ[i].dir))
  }

  // ---------------------------------------------------------------- what saves the protocol

  /** The worker has yet to look into the directories queue before it may sleep. */
  predicate Early(pc: Pc) {
    pc.Uncreated? || Young(pc) || pc.Released? || pc.FirstCheck? || pc.Scanning? || pc.Holding? || pc.Passing?
  }

  /** While a directory is queued, some worker has yet to look into the queue, unless a worker has failed. */
  ghost predicate Watched(s: State) {
    s.dirQ != [] ==> s.failed > 0 || exists w: nat :: w < |s.workers| && Early(s.workers[w].pc)
  }

  // ---------------------------------------------------------------- results and errors

  function FoundIn(t: Tree, cursor: seq<nat>, term: string): seq<nat>
    requires CursorsTyped(t, cursor)
  {
    seq(|t.items|, d requires 0 <= d < |t.items| => MatchesIn(t.items[d], cursor[d], term))
  }

  /** The matches counted so far are those among the entries read so far. */
  ghost predicate CountedMatches(c: Config, s: State)
    requires CursorsTyped(c.tree, s.cursor)
  {
    s.found == Sum(FoundIn(c.tree, s.cursor, c.term))
  }

  /** errno is set exactly when a directory that does not open has been read, and a reader with errno set fails. */
  ghost predicate Errors(t: Tree, s: State)
    requires CursorsTyped(t, s.cursor)
  {
    && (forall w :: 0 <= w < |s.workers| && ViewOf(s.workers[w]).scan.Some? && s.workers[w].dir.value < |t.items| ==>
          (s.workers[w].err <==> LockedBefore(t.items[s.workers[w].dir.value], s.cursor[s.workers[w].dir.value])))
    && (s.failed == 0 ==> forall d :: 0 <= d < |t.items| && LockedBefore(t.items[d], s.cursor[d]) ==>
      ScannedBy(ViewsOf(s.workers), d))
    && (s.failed > 0 ==> !AllOpen(t))
  }

  ghost predicate SleepersOk(s: State) {
    Sleepers(s.workers, s.threadQ, s.done)
  }

  ghost predicate PathsOk(c: Config, s: State) {
    Paths(c.tree, s.workers, s.dirQ)
  }

  ghost predicate Balanced(c: Config, s: State) {
    Ledger(c.tree, ViewsOf(s.workers), QueuedDirs(s.dirQ), s.cursor, s.log)
  }

  ghost predicate Inv(c: Config, s: State) {
    && IsConfig(c) && Typed(c, s)
    && Counted(s)
    && Phase(c, s)
    && SleepersOk(s)
    && PathsOk(c, s)
    && Watched(s)
    && Balanced(c, s)
    && CountedMatches(c, s)
    && Errors(c.tree, s)
  }

  lemma InitBooks(c: Config)
    requires IsConfig(c)
    ensures var s := Init(c);
      Typed(c, s) && Balanced(c, s) && CountedMatches(c, s) && Errors(c.tree, s) && PathsOk(c, s)
  {
    var s := Init(c);
    SumZero(FoundIn(c.tree, s.cursor, c.term));
    assert QueuedDirs(s.dirQ) == [0];
    assert 0 in QueuedDirs(s.dirQ);
  }

  lemma InitPlaces(c: Config)
    requires IsConfig(c)
    ensures var s := Init(c); Counted(s) && Phase(c, s) && SleepersOk(s) && Watched(s)
  {
    var s := Init(c);
    SumZero(RegisteredBits(s.workers));
    SumZero(FailedBits(s.workers));
    assert s.workers[0].pc.Uncreated?;
  }

  lemma InitInv(c: Config)
    requires IsConfig(c)
    ensures Inv(c, Init(c))
  {
    InitBooks(c);
    InitPlaces(c);
  }
}
