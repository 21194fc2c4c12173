/** Every step of every actor keeps the whole invariant; so it holds after every schedule. */
module SearchPreservation {
  import opened Options
  import opened SearchTree
  import opened SearchProtocol
  import opened SearchLedger
  import opened SearchInvariant
  import opened SearchSteps

  lemma FailedAtMostAll(c: Config, s: State)
    requires Counted(s) && |s.workers| == c.n
    ensures s.failed <= c.n
  {
    CountsFull(s.workers);
  }

  // ---------------------------------------------------------------- reading an entry

  lemma ReadKeepsLedger(t: Tree, workers: seq<Worker>, queue: seq<nat>, cursor: seq<nat>, log: seq<nat>, w: nat, d: nat)
    requires IsTree(t) && Ledger(t, ViewsOf(workers), queue, cursor, log)
    requires w < |workers| && workers[w].pc.Scanning? && workers[w].dir == Some(d) && d < |t.items|
      && cursor[d] < |t.items[d]|
    ensures Ledger(t, ViewsOf(workers[w := ReaderAfter(workers[w], t.items[d][cursor[d]])]), queue,
      cursor[d := cursor[d] + 1], log)
  {
    var item := t.items[d][cursor[d]];
    var k := ReaderAfter(workers[w], item);
    ViewsUpdate(workers, w, k);
    if IsSubdirectory(item) {
      OpenMove(t, ViewsOf(workers), queue, cursor, log, w, d);
    } else {
      ReadMove(t, ViewsOf(workers), queue, cursor, log, w, d);
      assert ViewsOf(workers)[w := ViewOf(k)] == ViewsOf(workers);
    }
  }

  lemma ReadKeepsBalance(c: Config, s: State, w: nat, d: nat)
    requires IsConfig(c) && Typed(c, s) && Balanced(c, s)
    requires w < c.n && s.workers[w].pc.Scanning? && s.workers[w].dir == Some(d) && s.cursor[d] < |c.tree.items[d]|
    ensures Balanced(c, ReadEntry(c, s, w, d))
  {
    ReadChanges(c, s, w, d);
    ReadIsBalanced(c, s, ReadEntry(c, s, w, d), w, d);
  }

  lemma ReadChanges(c: Config, s: State, w: nat, d: nat)
    requires Typed(c, s) && w < c.n && d < |c.tree.items| && s.cursor[d] < |c.tree.items[d]|
    ensures var s' := ReadEntry(c, s, w, d);
      && s'.workers == s.workers[w := ReaderAfter(s.workers[w], c.tree.items[d][s.cursor[d]])]
      && s'.cursor == s.cursor[d := s.cursor[d] + 1] && s'.dirQ == s.dirQ && s'.log == s.log
  {
  }

  lemma ReadIsBalanced(c: Config, s: State, s': State, w: nat, d: nat)
    requires IsTree(c.tree) && CursorsTyped(c.tree, s.cursor) && Balanced(c, s) && d < |c.tree.items|
    requires w < |s.workers| && s.workers[w].pc.Scanning? && s.workers[w].dir == Some(d)
      && s.cursor[d] < |c.tree.items[d]|
    requires s'.workers == s.workers[w := ReaderAfter(s.workers[w], c.tree.items[d][s.cursor[d]])]
    requires s'.cursor == s.cursor[d := s.cursor[d] + 1] && s'.dirQ == s.dirQ && s'.log == s.log
    ensures Balanced(c, s')
  {
    ReadKeepsLedger(c.tree, s.workers, QueuedDirs(s.dirQ), s.cursor, s.log, w, d);
  }

  lemma ReadKeepsPaths(c: Config, s: State, w: nat, d: nat)
    requires IsConfig(c) && Typed(c, s) && PathsOk(c, s)
    requires w < c.n && s.workers[w].pc.Scanning? && s.workers[w].dir == Some(d) && s.cursor[d] < |c.tree.items[d]|
    ensures PathsOk(c, ReadEntry(c, s, w, d))
  {
    var t := c.tree;
    var item := t.items[d][s.cursor[d]];
    assert ListsProperly(t, d, s.cursor[d]);
    if IsSubdirectory(item) {
      assert ListedAt(t, item.kind.id);
      assert PathOf(t, item.kind.id) == PathOf(t, d) + item.name + "/";
    }
    assert WorkerPaths(t, ReaderAfter(s.workers[w], item));
  }

  lemma ReadKeepsErrors(c: Config, s: State, w: nat, d: nat)
    requires Typed(c, s) && Errors(c.tree, s) && Exclusive(ViewsOf(s.workers), QueuedDirs(s.dirQ))
    requires w < c.n && s.workers[w].pc.Scanning? && s.workers[w].dir == Some(d) && s.cursor[d] < |c.tree.items[d]|
    ensures CursorsTyped(c.tree, ReadEntry(c, s, w, d).cursor) && Errors(c.tree, ReadEntry(c, s, w, d))
  {
    ErrorsAfterRead(c.tree, s, ReadEntry(c, s, w, d), w, d);
  }

  lemma ReadKeepsMatches(c: Config, s: State, w: nat, d: nat)
    requires Typed(c, s) && CountedMatches(c, s) && w < c.n && d < |c.tree.items| && s.cursor[d] < |c.tree.items[d]|
    ensures CursorsTyped(c.tree, ReadEntry(c, s, w, d).cursor) && CountedMatches(c, ReadEntry(c, s, w, d))
  {
    FoundAfterRead(c.tree, s.cursor, c.term, d);
  }

  lemma ReadKeepsPlaces(c: Config, s: State, w: nat, d: nat)
    requires Typed(c, s) && Counted(s) && Phase(c, s) && SleepersOk(s)
    requires w < c.n && s.workers[w].pc.Scanning? && s.workers[w].dir == Some(d) && s.cursor[d] < |c.tree.items[d]|
    ensures var s' := ReadEntry(c, s, w, d); Counted(s') && Phase(c, s') && SleepersOk(s') && Watched(s')
  {
    var s' := ReadEntry(c, s, w, d);
    var k' := ReaderAfter(s.workers[w], c.tree.items[d][s.cursor[d]]);
    SearchingWhileMainWaits(c, s, w);
    CountsFull(s.workers);
    CountedAfterSet(s, s', w, k');
    PhaseAfterSearchStep(c, s, s', w, k');
    SleepersAfterPlainStep(s.workers, s.threadQ, s.done, w, k');
    WatchedByStepper(s', w);
  }

  lemma ReadKeepsInv(c: Config, s: State, w: nat, d: nat)
    requires Inv(c, s) && w < c.n && s.workers[w].pc.Scanning? && s.workers[w].dir == Some(d)
    requires s.cursor[d] < |c.tree.items[d]|
    ensures Inv(c, ReadEntry(c, s, w, d))
  {
    ReadKeepsTyped(c, s, w, d);
    ReadKeepsPlaces(c, s, w, d);
    ReadKeepsPaths(c, s, w, d);
    ReadKeepsBalance(c, s, w, d);
    ReadKeepsErrors(c, s, w, d);
    ReadKeepsMatches(c, s, w, d);
  }

  // ---------------------------------------------------------------- looking into the directories queue

  /**
   The worker may look into the queue: before its first directory, or after reading one to the end without an error.
   */
  predicate MayTake(c: Config, s: State, w: nat)
    requires Typed(c, s) && w < c.n
  {
    var k := s.workers[w];
    || (k.pc.FirstCheck? && !HoldsQueueMutex(s.main))
    || (k.pc.Scanning? && s.cursor[k.dir.value] == |c.tree.items[k.dir.value]| && !k.err)
  }

  function TakerAfter(k: Worker, dirQ: seq<Opened>): Worker {
    if dirQ == [] then k.(pc := Retiring) else Worker(Scanning, Some(dirQ[0].dir), dirQ[0].path, false)
  }

  lemma TakeKeepsLedger(t: Tree, workers: seq<Worker>, dirQ: seq<Opened>, cursor: seq<nat>, log: seq<nat>, w: nat)
    requires Ledger(t, ViewsOf(workers), QueuedDirs(dirQ), cursor, log)
    requires w < |workers| && (workers[w].pc.FirstCheck? || workers[w].pc.Scanning?)
    requires workers[w].pc.Scanning? && workers[w].dir.Some? ==>
      workers[w].dir.value < |t.items| && cursor[workers[w].dir.value] == |t.items[workers[w].dir.value]|
    ensures dirQ == [] ==> Ledger(t, ViewsOf(workers[w := TakerAfter(workers[w], dirQ)]), QueuedDirs(dirQ), cursor, log)
    ensures dirQ != [] ==>
      Ledger(t, ViewsOf(workers[w := TakerAfter(workers[w], dirQ)]), QueuedDirs(dirQ[1..]), cursor, log + [dirQ[0].dir])
  {
    ViewsUpdate(workers, w, TakerAfter(workers[w], dirQ));
    if dirQ == [] {
      FinishMove(t, ViewsOf(workers), QueuedDirs(dirQ), cursor, log, w);
    } else {
      TakeMove(t, ViewsOf(workers), QueuedDirs(dirQ), cursor, log, w);
      assert QueuedDirs(dirQ[1..]) == QueuedDirs(dirQ)[1..];
    }
  }

  lemma TakeKeepsBalance(c: Config, s: State, w: nat)
    requires Typed(c, s) && Balanced(c, s) && w < c.n && MayTake(c, s, w)
    ensures Balanced(c, TakeDirectory(s, w))
  {
    TakeKeepsLedger(c.tree, s.workers, s.dirQ, s.cursor, s.log, w);
  }

  lemma TakeKeepsPaths(c: Config, s: State, w: nat)
    requires Typed(c, s) && PathsOk(c, s) && w < c.n && MayTake(c, s, w)
    ensures PathsOk(c, TakeDirectory(s, w))
  {
    assert WorkerPaths(c.tree, s.workers[w]);
    assert WorkerPaths(c.tree, TakerAfter(s.workers[w], s.dirQ));
  }

  lemma TakeKeepsErrors(c: Config, s: State, w: nat)
    requires Typed(c, s) && Balanced(c, s) && Errors(c.tree, s) && w < c.n && MayTake(c, s, w)
    ensures Typed(c, TakeDirectory(s, w)) && Errors(c.tree, TakeDirectory(s, w))
  {
    var k' := TakerAfter(s.workers[w], s.dirQ);
    TakeKeepsTyped(c, s, w);
    if s.dirQ != [] {
      QueuedAreUntouched(c, s);
    }
    TakerKeepsErrors(c, s, TakeDirectory(s, w), w, k');
  }

  lemma TakerKeepsErrors(c: Config, s: State, s': State, w: nat, k': Worker)
    requires Typed(c, s) && Errors(c.tree, s) && w < c.n && MayTake(c, s, w) && k' == TakerAfter(s.workers[w], s.dirQ)
    requires s.dirQ != [] ==> s.cursor[s.dirQ[0].dir] == 0
    requires s'.workers == s.workers[w := k'] && s'.cursor == s.cursor && s'.failed == s.failed
    ensures Errors(c.tree, s')
  {
    ErrorsAfterMove(c.tree, s, s', w, k');
  }

  lemma QueuedAreUntouched(c: Config, s: State)
    requires Typed(c, s) && Balanced(c, s) && s.dirQ != []
    ensures s.cursor[s.dirQ[0].dir] == 0
  {
    assert QueuedDirs(s.dirQ)[0] == s.dirQ[0].dir;
  }

  lemma TakeKeepsSleepers(c: Config, s: State, w: nat)
    requires Typed(c, s) && Phase(c, s) && SleepersOk(s) && w < c.n && MayTake(c, s, w)
    ensures var s' := TakeDirectory(s, w); SleepersOk(s') && Watched(s')
  {
    SearchingWhileMainWaits(c, s, w);
    SleepersAfterPlainStep(s.workers, s.threadQ, s.done, w, TakerAfter(s.workers[w], s.dirQ));
    if s.dirQ != [] {
      WatchedByStepper(TakeDirectory(s, w), w);
    }
  }

  lemma TakeKeepsPhase(c: Config, s: State, w: nat)
    requires Typed(c, s) && Counted(s) && Phase(c, s) && w < c.n && MayTake(c, s, w)
    ensures var s' := TakeDirectory(s, w); Counted(s') && Phase(c, s')
  {
    var s' := TakeDirectory(s, w);
    var k' := TakerAfter(s.workers[w], s.dirQ);
    SearchingWhileMainWaits(c, s, w);
    FailedAtMostAll(c, s);
    CountedAfterSet(s, s', w, k');
    PhaseAfterSearchStep(c, s, s', w, k');
  }

  lemma TakeKeepsInv(c: Config, s: State, w: nat)
    requires Inv(c, s) && w < c.n && MayTake(c, s, w)
    ensures Inv(c, TakeDirectory(s, w))
  {
    TakeKeepsPhase(c, s, w);
    TakeKeepsSleepers(c, s, w);
    TakeKeepsPaths(c, s, w);
    TakeKeepsBalance(c, s, w);
    TakeKeepsErrors(c, s, w);
  }

  // ---------------------------------------------------------------- failing after an errno

  lemma LockedMeansNotAllOpen(t: Tree, d: nat, k: nat)
    requires d < |t.items| && k <= |t.items[d]| && LockedBefore(t.items[d], k)
    ensures !AllOpen(t)
  {
    var i :| 0 <= i < k && IsLocked(t.items[d][i]);
    assert IsLocked(t.items[d][i]);
  }

  function Doomed(s: State, w: nat): State
    requires w < |s.workers|
  {
    Set(s, w, s.workers[w].(pc := Dying)).(failed := s.failed + 1)
  }

  lemma DoomKeepsBalance(c: Config, s: State, w: nat)
    requires Typed(c, s) && Balanced(c, s) && w < c.n && s.workers[w].pc.Scanning?
    requires s.cursor[s.workers[w].dir.value] == |c.tree.items[s.workers[w].dir.value]|
    ensures Balanced(c, Doomed(s, w))
  {
    ViewsUpdate(s.workers, w, s.workers[w].(pc := Dying));
    FinishMove(c.tree, ViewsOf(s.workers), QueuedDirs(s.dirQ), s.cursor, s.log, w);
  }

  lemma DoomKeepsPlaces(c: Config, s: State, w: nat)
    requires Typed(c, s) && Counted(s) && Phase(c, s) && SleepersOk(s) && w < c.n && s.workers[w].pc.Scanning?
    ensures var s' := Doomed(s, w); Counted(s') && Phase(c, s') && SleepersOk(s') && Watched(s')
  {
    var s' := Doomed(s, w);
    var k' := s.workers[w].(pc := Dying);
    SearchingWhileMainWaits(c, s, w);
    CountedAfterSet(s, s', w, k');
    CountsFull(s'.workers);
    PhaseAfterSearchStep(c, s, s', w, k');
    SleepersAfterPlainStep(s.workers, s.threadQ, s.done, w, k');
  }

  lemma DoomKeepsRest(c: Config, s: State, w: nat)
    requires Typed(c, s) && PathsOk(c, s) && Errors(c.tree, s) && w < c.n
    requires s.workers[w].pc.Scanning? && s.workers[w].err
    ensures PathsOk(c, Doomed(s, w)) && Typed(c, Doomed(s, w)) && Errors(c.tree, Doomed(s, w))
  {
    var k' := s.workers[w].(pc := Dying);
    var d := s.workers[w].dir.value;
    LockedMeansNotAllOpen(c.tree, d, s.cursor[d]);
    ErrorsAfterMove(c.tree, s, Doomed(s, w), w, k');
    assert WorkerPaths(c.tree, k');
  }

  lemma DoomKeepsInv(c: Config, s: State, w: nat)
    requires Inv(c, s) && w < c.n && s.workers[w].pc.Scanning? && s.workers[w].err
    requires s.cursor[s.workers[w].dir.value] == |c.tree.items[s.workers[w].dir.value]|
    ensures Inv(c, Doomed(s, w))
  {
    DoomKeepsPlaces(c, s, w);
    DoomKeepsBalance(c, s, w);
    DoomKeepsRest(c, s, w);
  }

  lemma ScanKeepsInv(c: Config, s: State, w: nat)
    requires Inv(c, s) && w < c.n && s.workers[w].pc.Scanning? && WorkerEnabled(c, s, w)
    ensures Inv(c, Scan(c, s, w))
  {
    var d := s.workers[w].dir.value;
    if s.cursor[d] < |c.tree.items[d]| {
      ReadKeepsInv(c, s, w, d);
    } else if s.workers[w].err {
      DoomKeepsInv(c, s, w);
    } else {
      TakeKeepsInv(c, s, w);
    }
  }

  // ---------------------------------------------------------------- delivering an opened directory

  lemma EnqueueKeepsLedger(t: Tree, workers: seq<Worker>, dirQ: seq<Opened>, cursor: seq<nat>, log: seq<nat>, w: nat)
    requires Ledger(t, ViewsOf(workers), QueuedDirs(dirQ), cursor, log) && w < |workers| && workers[w].pc.Holding?
    ensures var pc := workers[w].pc;
      Ledger(t, ViewsOf(workers[w := workers[w].(pc := Scanning)]),
        QueuedDirs(dirQ + [Opened(pc.child, pc.childPath)]), cursor, log)
  {
    var pc := workers[w].pc;
    ViewsUpdate(workers, w, workers[w].(pc := Scanning));
    EnqueueMove(t, ViewsOf(workers), QueuedDirs(dirQ), cursor, log, w, pc.child);
    assert QueuedDirs(dirQ + [Opened(pc.child, pc.childPath)]) == QueuedDirs(dirQ) + [pc.child];
  }

  /** A step that changes no view and no queued directory leaves the ledger as it is. */
  lemma BalanceUntouched(c: Config, s: State, s': State)
    requires Balanced(c, s) && ViewsOf(s'.workers) == ViewsOf(s.workers)
    requires s'.dirQ == s.dirQ && s'.cursor == s.cursor && s'.log == s.log
    ensures Balanced(c, s')
  {
  }

  lemma SameViews(workers: seq<Worker>, w: nat, k: Worker)
    requires w < |workers| && ViewOf(k) == ViewOf(workers[w])
    ensures ViewsOf(workers[w := k]) == ViewsOf(workers)
  {
    ViewsUpdate(workers, w, k);
    assert ViewsOf(workers)[w := ViewOf(k)] == ViewsOf(workers);
  }

  lemma DeliverKeepsBalance(c: Config, s: State, w: nat)
    requires Typed(c, s) && Balanced(c, s) && w < c.n && s.workers[w].pc.Holding?
    ensures Balanced(c, Deliver(s, w))
  {
    if s.threadQ == [] {
      EnqueueKeepsLedger(c.tree, s.workers, s.dirQ, s.cursor, s.log, w);
    } else {
      SameViews(s.workers, w, Deliver(s, w).workers[w]);
      BalanceUntouched(c, s, Deliver(s, w));
    }
  }

  lemma DeliverKeepsSleepers(c: Config, s: State, w: nat)
    requires Typed(c, s) && Phase(c, s) && SleepersOk(s) && w < c.n && s.workers[w].pc.Holding?
    ensures var s' := Deliver(s, w); SleepersOk(s') && Watched(s')
  {
    SearchingWhileMainWaits(c, s, w);
    WatchedByStepper(Deliver(s, w), w);
    if s.threadQ == [] {
      SleepersAfterPlainStep(s.workers, s.threadQ, s.done, w, s.workers[w].(pc := Scanning));
    } else {
      SleepersAfterDeliver(s.workers, s.threadQ, w, s.workers[w].pc.child, s.workers[w].pc.childPath);
    }
  }

  lemma DeliverKeepsPhase(c: Config, s: State, w: nat)
    requires Typed(c, s) && Counted(s) && Phase(c, s) && w < c.n && s.workers[w].pc.Holding?
    ensures var s' := Deliver(s, w); Counted(s') && Phase(c, s')
  {
    var s' := Deliver(s, w);
    SearchingWhileMainWaits(c, s, w);
    FailedAtMostAll(c, s);
    CountedAfterSet(s, s', w, s'.workers[w]);
    PhaseAfterSearchStep(c, s, s', w, s'.workers[w]);
  }

  lemma DeliverKeepsRest(c: Config, s: State, w: nat)
    requires Typed(c, s) && PathsOk(c, s) && Errors(c.tree, s) && w < c.n && s.workers[w].pc.Holding?
    ensures PathsOk(c, Deliver(s, w)) && Typed(c, Deliver(s, w)) && Errors(c.tree, Deliver(s, w))
  {
    var k' := Deliver(s, w).workers[w];
    QueueStepsKeepTyped(c, s, w);
    assert WorkerPaths(c.tree, s.workers[w]);
    assert WorkerPaths(c.tree, k');
    ErrorsAfterMove(c.tree, s, Deliver(s, w), w, k');
  }

  lemma DeliverKeepsInv(c: Config, s: State, w: nat)
    requires Inv(c, s) && w < c.n && s.workers[w].pc.Holding?
    ensures Inv(c, Deliver(s, w))
  {
    DeliverKeepsSleepers(c, s, w);
    DeliverKeepsPhase(c, s, w);
    DeliverKeepsBalance(c, s, w);
    DeliverKeepsRest(c, s, w);
  }

  // ---------------------------------------------------------------- passing a directory to a sleeper

  lemma PassFacts(s: State, w: nat)
    requires SleepersOk(s) && w < |s.workers| && s.workers[w].pc.Passing?
    ensures var t := s.workers[w].pc.sleeper; t < |s.workers| && t != w && s.workers[t].pc.Asleep?
    ensures s.workers[w].pc.stage >= 1 ==> s.workers[s.workers[w].pc.sleeper].dir == Some(s.workers[w].pc.child)
    ensures s.workers[w].pc.stage >= 2 ==> s.workers[s.workers[w].pc.sleeper].path == s.workers[w].pc.childPath
  {
    assert ReceiverReady(s.workers, s.threadQ, w);
  }

  /** The two workers that a pass step changes. */
  function GiverAfter(k: Worker): Worker
    requires k.pc.Passing?
  {
    if k.pc.stage >= 2 then k.(pc := Scanning) else k.(pc := k.pc.(stage := k.pc.stage + 1))
  }

  function ReceiverAfter(k: Worker, t: Worker): Worker
    requires k.pc.Passing?
  {
    if k.pc.stage == 0 then t.(dir := Some(k.pc.child))
    else if k.pc.stage == 1 then t.(path := k.pc.childPath)
    else t.(pc := Woken)
  }

  lemma PassAsTwoUpdates(c: Config, s: State, w: nat)
    requires Typed(c, s) && SleepersOk(s) && w < c.n && s.workers[w].pc.Passing?
    ensures var t := s.workers[w].pc.sleeper;
      && t < |s.workers| && t != w
      && Pass(s, w) == s.(workers :=
        s.workers[t := ReceiverAfter(s.workers[w], s.workers[t])][w := GiverAfter(s.workers[w])])
  {
    PassFacts(s, w);
  }

  lemma ViewsAfterPass(workers: seq<Worker>, w: nat)
    requires w < |workers| && workers[w].pc.Passing? && workers[w].pc.sleeper < |workers| && workers[w].pc.sleeper != w
    requires workers[workers[w].pc.sleeper].pc.Asleep?
    ensures var k := workers[w];
      var t := k.pc.sleeper;
      ViewsOf(workers[t := ReceiverAfter(k, workers[t])][w := GiverAfter(k)]) ==
        ViewsOf(workers)[w := ViewOf(GiverAfter(k))][t := ViewOf(ReceiverAfter(k, workers[t]))]
  {
  }

  lemma FillKeepsBalance(c: Config, s: State, w: nat)
    requires Typed(c, s) && Balanced(c, s) && SleepersOk(s) && w < c.n && s.workers[w].pc.Passing?
      && s.workers[w].pc.stage < 2
    ensures Balanced(c, Pass(s, w))
  {
    PassFacts(s, w);
    PassAsTwoUpdates(c, s, w);
    ViewsAfterPass(s.workers, w);
    assert ViewsOf(Pass(s, w).workers) == ViewsOf(s.workers);
    BalanceUntouched(c, s, Pass(s, w));
  }

  lemma HandOffViews(workers: seq<Worker>, w: nat)
    requires w < |workers| && workers[w].pc.Passing? && workers[w].pc.stage == 2
    requires workers[w].pc.sleeper < |workers| && workers[w].pc.sleeper != w
    requires workers[workers[w].pc.sleeper].pc.Asleep?
      && workers[workers[w].pc.sleeper].dir == Some(workers[w].pc.child)
    ensures var k, views := workers[w], ViewsOf(workers);
      var r, child := k.pc.sleeper, k.pc.child;
      && views[w].carry == Some(child) && views[r] == View(None, None)
      && ViewsOf(workers[r := ReceiverAfter(k, workers[r])][w := GiverAfter(k)])
           == views[w := View(views[w].scan, None)][r := View(None, Some(child))]
  {
    ViewsAfterPass(workers, w);
  }

  lemma HandOffKeepsLedger(t: Tree, workers: seq<Worker>, queue: seq<nat>, cursor: seq<nat>, log: seq<nat>, w: nat)
    requires Ledger(t, ViewsOf(workers), queue, cursor, log) && w < |workers| && workers[w].pc.Passing?
      && workers[w].pc.stage == 2
    requires workers[w].pc.sleeper < |workers| && workers[w].pc.sleeper != w
    requires workers[workers[w].pc.sleeper].pc.Asleep?
      && workers[workers[w].pc.sleeper].dir == Some(workers[w].pc.child)
    ensures var k := workers[w];
      var r := k.pc.sleeper;
      Ledger(t, ViewsOf(workers[r := ReceiverAfter(k, workers[r])][w := GiverAfter(k)]), queue, cursor, log)
  {
    HandOffViews(workers, w);
    PassMove(t, ViewsOf(workers), queue, cursor, log, w, workers[w].pc.sleeper, workers[w].pc.child);
  }

  lemma PassKeepsBalance(c: Config, s: State, w: nat)
    requires Typed(c, s) && Balanced(c, s) && SleepersOk(s) && w < c.n && s.workers[w].pc.Passing?
    ensures Balanced(c, Pass(s, w))
  {
    if s.workers[w].pc.stage < 2 {
      FillKeepsBalance(c, s, w);
    } else {
      PassFacts(s, w);
      PassAsTwoUpdates(c, s, w);
      HandOffKeepsLedger(c.tree, s.workers, QueuedDirs(s.dirQ), s.cursor, s.log, w);
    }
  }

  lemma PassKeepsSleepers(c: Config, s: State, w: nat)
    requires Typed(c, s) && Phase(c, s) && SleepersOk(s) && w < c.n && s.workers[w].pc.Passing?
    ensures SleepersOk(Pass(s, w))
  {
    SearchingWhileMainWaits(c, s, w);
    PassFacts(s, w);
    var k := s.workers[w];
    if k.pc.stage < 2 {
      SleepersAfterFill(s.workers, s.threadQ, w, k.pc.stage + 1, ReceiverAfter(k, s.workers[k.pc.sleeper]));
    } else {
      SleepersAfterHandOff(s.workers, s.threadQ, w);
    }
  }

  lemma PassKeepsPhase(c: Config, s: State, w: nat)
    requires Typed(c, s) && Counted(s) && Phase(c, s) && SleepersOk(s) && w < c.n && s.workers[w].pc.Passing?
    ensures var s' := Pass(s, w); Counted(s') && Phase(c, s') && Watched(s')
  {
    PassFacts(s, w);
    SearchingWhileMainWaits(c, s, w);
    CountedAfterPass(s, w);
    PassPhase(c, s, w);
    WatchedByStepper(Pass(s, w), w);
  }

  lemma PassPhase(c: Config, s: State, w: nat)
    requires Typed(c, s) && Counted(s) && Phase(c, s) && SleepersOk(s) && s.main.AwaitSleep? && w < c.n
      && s.workers[w].pc.Passing?
    ensures Phase(c, Pass(s, w))
  {
    PassFacts(s, w);
    PassAsTwoUpdates(c, s, w);
    FailedAtMostAll(c, s);
    var k := s.workers[w];
    var t := k.pc.sleeper;
    var s1 := Set(s, t, ReceiverAfter(k, s.workers[t]));
    PhaseAfterSearchStep(c, s, s1, t, s1.workers[t]);
    PhaseAfterSearchStep(c, s1, Pass(s, w), w, GiverAfter(k));
  }

  lemma PassKeepsErrors(c: Config, s: State, w: nat)
    requires Typed(c, s) && Errors(c.tree, s) && SleepersOk(s) && w < c.n && s.workers[w].pc.Passing?
    ensures Typed(c, Pass(s, w)) && Errors(c.tree, Pass(s, w))
  {
    PassFacts(s, w);
    PassAsTwoUpdates(c, s, w);
    PassKeepsTyped(c, s, w);
    var k := s.workers[w];
    var t := k.pc.sleeper;
    var s1 := Set(s, t, ReceiverAfter(k, s.workers[t]));
    ErrorsAfterMove(c.tree, s, s1, t, s1.workers[t]);
    ErrorsAfterMove(c.tree, s1, Pass(s, w), w, GiverAfter(k));
  }

  lemma PassKeepsPaths(c: Config, s: State, w: nat)
    requires Typed(c, s) && PathsOk(c, s) && SleepersOk(s) && w < c.n && s.workers[w].pc.Passing?
    ensures PathsOk(c, Pass(s, w))
  {
    PassFacts(s, w);
    PassAsTwoUpdates(c, s, w);
    var k := s.workers[w];
    assert WorkerPaths(c.tree, k) && WorkerPaths(c.tree, GiverAfter(k));
    assert WorkerPaths(c.tree, ReceiverAfter(k, s.workers[k.pc.sleeper]));
  }

  lemma PassKeepsMatches(c: Config, s: State, w: nat)
    requires Typed(c, s) && CountedMatches(c, s) && SleepersOk(s) && w < c.n && s.workers[w].pc.Passing?
    ensures Typed(c, Pass(s, w)) && CountedMatches(c, Pass(s, w))
  {
    PassAsTwoUpdates(c, s, w);
    PassKeepsTyped(c, s, w);
  }

  lemma PassKeepsInv(c: Config, s: State, w: nat)
    requires Inv(c, s) && w < c.n && s.workers[w].pc.Passing?
    ensures Inv(c, Pass(s, w))
  {
    PassKeepsPhase(c, s, w);
    PassKeepsSleepers(c, s, w);
    PassKeepsBalance(c, s, w);
    PassKeepsPaths(c, s, w);
    PassKeepsErrors(c, s, w);
    PassKeepsMatches(c, s, w);
  }

  // ---------------------------------------------------------------- falling asleep and waking up

  lemma FallAsleepSleepers(c: Config, s: State, w: nat)
    requires Typed(c, s) && Counted(s) && Phase(c, s) && SleepersOk(s) && w < c.n && s.workers[w].pc.Retiring?
    ensures var s' := FallAsleep(s, w); Counted(s') && SleepersOk(s')
  {
    SearchingWhileMainWaits(c, s, w);
    CountedAfterSet(s, FallAsleep(s, w), w, s.workers[w].(pc := Asleep, dir := None, path := ""));
    SleepersAfterFallAsleep(s.workers, s.threadQ, w);
  }

  /** A full queue of sleepers holds every worker. */
  lemma FullQueueMeansQuiet(c: Config, s: State)
    requires |s.workers| == c.n && Counted(s) && SleepersOk(s) && !s.done && |s.threadQ| == c.n
    ensures Quiet(c, s)
  {
    Pigeonhole(s.threadQ, c.n);
    forall w: nat | w < c.n ensures s.workers[w].pc.Asleep? && FailedBit(s.workers[w]) == 0 {
      assert w in s.threadQ;
    }
    CountsFull(s.workers);
  }

  lemma AllRegisteredInSearch(c: Config, s: State)
    requires Counted(s) && Phase(c, s) && s.main.AwaitSleep?
    ensures s.initialized == c.n
  {
    forall w: nat | w < c.n ensures RegisteredBit(s.workers[w]) == 1 {
    }
    CountsFull(s.workers);
  }

  lemma FallAsleepPhase(c: Config, s: State, w: nat)
    requires Typed(c, s) && Counted(s) && Phase(c, s) && w < c.n && s.workers[w].pc.Retiring?
    requires Counted(FallAsleep(s, w)) && SleepersOk(FallAsleep(s, w))
    ensures Phase(c, FallAsleep(s, w))
  {
    var s' := FallAsleep(s, w);
    SearchingWhileMainWaits(c, s, w);
    AllRegisteredInSearch(c, s);
    FailedAtMostAll(c, s);
    Pigeonhole(s'.threadQ, c.n);
    if |s'.threadQ| == c.n {
      FullQueueMeansQuiet(c, s');
    } else {
      PhaseAfterSearchStep(c, s, s', w, s'.workers[w]);
    }
  }

  lemma FallAsleepRest(c: Config, s: State, w: nat)
    requires Typed(c, s) && PathsOk(c, s) && Errors(c.tree, s) && w < c.n && s.workers[w].pc.Retiring?
    ensures var s' := FallAsleep(s, w); Typed(c, s') && PathsOk(c, s') && Errors(c.tree, s')
  {
    var s' := FallAsleep(s, w);
    var k' := s.workers[w].(pc := Asleep, dir := None, path := "");
    EndStepsKeepTyped(c, s, w);
    ErrorsAfterMove(c.tree, s, s', w, k');
    assert WorkerPaths(c.tree, k');
  }

  lemma FallAsleepBooks(c: Config, s: State, w: nat)
    requires Typed(c, s) && Watched(s) && Balanced(c, s) && CountedMatches(c, s) && w < c.n && s.workers[w].pc.Retiring?
    ensures var s' := FallAsleep(s, w); Watched(s') && Balanced(c, s') && s'.cursor == s.cursor && CountedMatches(c, s')
  {
    var s' := FallAsleep(s, w);
    var k' := s.workers[w].(pc := Asleep, dir := None, path := "");
    WatchedByOthers(s, s', w, k');
    SameViews(s.workers, w, k');
    BalanceUntouched(c, s, s');
  }

  lemma FallAsleepKeepsInv(c: Config, s: State, w: nat)
    requires Inv(c, s) && w < c.n && s.workers[w].pc.Retiring?
    ensures Inv(c, FallAsleep(s, w))
  {
    FallAsleepSleepers(c, s, w);
    FallAsleepPhase(c, s, w);
    FallAsleepRest(c, s, w);
    FallAsleepBooks(c, s, w);
  }

  /** At shutdown nobody holds a directory. */
  lemma NoDirectoryAtShutdown(c: Config, s: State, w: nat)
    requires Phase(c, s) && SleepersOk(s) && s.done && w < c.n
    ensures s.workers[w].dir == None && |s.threadQ| == c.n && w in s.threadQ && s.failed == 0
    ensures s.workers[w].pc.Asleep? || s.workers[w].pc.Woken? || s.workers[w].pc == Exited(false)
  {
    Pigeonhole(s.threadQ, c.n);
    assert w in s.threadQ;
    var i :| 0 <= i < |s.threadQ| && s.threadQ[i] == w;
  }

  lemma LeaveKeepsInv(c: Config, s: State, w: nat)
    requires Inv(c, s) && w < c.n && s.workers[w].pc.Woken? && s.done
    ensures Inv(c, Resume(s, w))
  {
    var s' := Resume(s, w);
    LeavePhase(c, s, w);
    LeaveRest(c, s, w);
  }

  lemma LeavePhase(c: Config, s: State, w: nat)
    requires Typed(c, s) && Counted(s) && Phase(c, s) && SleepersOk(s)
    requires w < c.n && s.workers[w].pc.Woken? && s.done
    ensures var s' := Resume(s, w); Counted(s') && Phase(c, s') && SleepersOk(s')
  {
    var s' := Resume(s, w);
    var k' := s.workers[w].(pc := Exited(false));
    NoDirectoryAtShutdown(c, s, w);
    CountedAfterSet(s, s', w, k');
    SleepersAfterPlainStep(s.workers, s.threadQ, s.done, w, k');
  }

  lemma LeaveRest(c: Config, s: State, w: nat)
    requires Typed(c, s) && PathsOk(c, s) && Errors(c.tree, s) && Watched(s) && Balanced(c, s) && CountedMatches(c, s)
    requires Phase(c, s) && SleepersOk(s)
    requires w < c.n && s.workers[w].pc.Woken? && s.done
    ensures var s' := Resume(s, w);
      Typed(c, s') && PathsOk(c, s') && Errors(c.tree, s') && Watched(s') && Balanced(c, s') && CountedMatches(c, s')
  {
    var s' := Resume(s, w);
    var k' := s.workers[w].(pc := Exited(false));
    NoDirectoryAtShutdown(c, s, w);
    ErrorsAfterMove(c.tree, s, s', w, k');
    WatchedByOthers(s, s', w, k');
    SameViews(s.workers, w, k');
    BalanceUntouched(c, s, s');
    assert WorkerPaths(c.tree, k');
  }

  function BeginnerAfter(k: Worker): Worker {
    Worker(Scanning, k.dir, k.path, false)
  }

  lemma BeginKeepsLedger(t: Tree, workers: seq<Worker>, queue: seq<nat>, cursor: seq<nat>, log: seq<nat>, w: nat)
    requires Ledger(t, ViewsOf(workers), queue, cursor, log)
    requires w < |workers| && workers[w].pc.Woken? && workers[w].dir.Some?
    ensures Ledger(t, ViewsOf(workers[w := BeginnerAfter(workers[w])]), queue, cursor, log + [workers[w].dir.value])
  {
    ViewsUpdate(workers, w, BeginnerAfter(workers[w]));
    BeginMove(t, ViewsOf(workers), queue, cursor, log, w, workers[w].dir.value);
  }

  lemma BeginPhase(c: Config, s: State, w: nat)
    requires Typed(c, s) && Counted(s) && Phase(c, s) && SleepersOk(s)
    requires w < c.n && s.workers[w].pc.Woken? && !s.done && s.workers[w].dir.Some?
    ensures var s' := Resume(s, w); Counted(s') && Phase(c, s') && SleepersOk(s') && Watched(s')
  {
    var s' := Resume(s, w);
    var k' := BeginnerAfter(s.workers[w]);
    CountsFull(s.workers);
    CountedAfterSet(s, s', w, k');
    PhaseAfterSearchStep(c, s, s', w, k');
    SleepersAfterPlainStep(s.workers, s.threadQ, s.done, w, k');
    WatchedByStepper(s', w);
  }

  lemma BeginRest(c: Config, s: State, w: nat)
    requires Typed(c, s) && PathsOk(c, s) && Errors(c.tree, s) && Balanced(c, s)
    requires w < c.n && s.workers[w].pc.Woken? && !s.done && s.workers[w].dir.Some?
    ensures var s' := Resume(s, w); Typed(c, s') && PathsOk(c, s') && Errors(c.tree, s') && Balanced(c, s')
  {
    var s' := Resume(s, w);
    var k' := BeginnerAfter(s.workers[w]);
    BeginKeepsLedger(c.tree, s.workers, QueuedDirs(s.dirQ), s.cursor, s.log, w);
    assert ViewsOf(s.workers)[w].carry == s.workers[w].dir;
    ErrorsAfterMove(c.tree, s, s', w, k');
    assert WorkerPaths(c.tree, s.workers[w]);
    assert WorkerPaths(c.tree, k');
  }

  lemma ResumeKeepsInv(c: Config, s: State, w: nat)
    requires Inv(c, s) && w < c.n && s.workers[w].pc.Woken? && (s.done || s.workers[w].dir.Some?)
    ensures Inv(c, Resume(s, w))
  {
    if s.done {
      LeaveKeepsInv(c, s, w);
    } else {
      BeginPhase(c, s, w);
      BeginRest(c, s, w);
    }
  }

  // ---------------------------------------------------------------- leaving after a failure

  lemma DieSleepers(c: Config, s: State, w: nat)
    requires Typed(c, s) && Phase(c, s) && SleepersOk(s) && Watched(s) && w < c.n && s.workers[w].pc.Dying?
    ensures var s' := Die(c, s, w); SleepersOk(s') && Watched(s')
  {
    var s' := Die(c, s, w);
    var k' := s.workers[w].(pc := Exited(true));
    assert !s.done;
    SleepersAfterPlainStep(s.workers, s.threadQ, s.done, w, k');
    WatchedByOthers(s, s', w, k');
  }

  lemma DiePhase(c: Config, s: State, w: nat)
    requires Typed(c, s) && Counted(s) && Phase(c, s) && w < c.n && s.workers[w].pc.Dying? && !s.main.Aborted?
    ensures var s' := Die(c, s, w); Counted(s') && Phase(c, s')
  {
    var s' := Die(c, s, w);
    CountedAfterSet(s, s', w, s.workers[w].(pc := Exited(true)));
    if s.failed == c.n {
      CountsFull(s'.workers);
      forall u: nat | u < c.n ensures Gone(s'.workers[u].pc) {
        assert FailedBit(s'.workers[u]) == 1;
      }
    } else {
      assert s.main.AwaitSleep?;
    }
  }

  lemma DieRest(c: Config, s: State, w: nat)
    requires Typed(c, s) && PathsOk(c, s) && Errors(c.tree, s) && Balanced(c, s) && CountedMatches(c, s)
    requires w < c.n && s.workers[w].pc.Dying?
    ensures var s' := Die(c, s, w);
      Typed(c, s') && PathsOk(c, s') && Errors(c.tree, s') && Balanced(c, s') && CountedMatches(c, s')
  {
    var s' := Die(c, s, w);
    var k' := s.workers[w].(pc := Exited(true));
    EndStepsKeepTyped(c, s, w);
    ErrorsAfterMove(c.tree, s, s', w, k');
    SameViews(s.workers, w, k');
    BalanceUntouched(c, s, s');
    assert WorkerPaths(c.tree, k');
  }

  lemma DieKeepsInv(c: Config, s: State, w: nat)
    requires Inv(c, s) && w < c.n && s.workers[w].pc.Dying? && !s.main.Aborted?
    ensures Inv(c, Die(c, s, w))
  {
    DiePhase(c, s, w);
    DieSleepers(c, s, w);
    DieRest(c, s, w);
  }

  // ---------------------------------------------------------------- starting up

  lemma RegisterSleepers(c: Config, s: State, w: nat)
    requires Typed(c, s) && Phase(c, s) && SleepersOk(s) && w < c.n && s.workers[w].pc.Registering?
    ensures var s' := Register(c, s, w); SleepersOk(s') && Watched(s')
  {
    SleepersAfterPlainStep(s.workers, s.threadQ, s.done, w, s.workers[w].(pc := AwaitStart));
    WatchedByStepper(Register(c, s, w), w);
  }

  lemma RegisterCounts(c: Config, s: State, w: nat)
    requires Typed(c, s) && Counted(s) && w < c.n && s.workers[w].pc.Registering?
    ensures Counted(Register(c, s, w))
  {
    CountedAfterSet(s, Register(c, s, w), w, s.workers[w].(pc := AwaitStart));
  }

  lemma RegisterWhileCreating(c: Config, s: State, w: nat)
    requires Typed(c, s) && Phase(c, s) && w < c.n && s.workers[w].pc.Registering? && s.main.Creating?
    requires Counted(Register(c, s, w))
    ensures Phase(c, Register(c, s, w))
  {
    var s' := Register(c, s, w);
    CountsFull(s'.workers);
    assert RegisteredBit(s'.workers[c.n - 1]) == 0;
  }

  lemma RegisterWhileMainWaits(c: Config, s: State, w: nat)
    requires Typed(c, s) && Phase(c, s) && w < c.n && s.workers[w].pc.Registering? && s.main.AwaitInit?
    requires Counted(Register(c, s, w))
    ensures Phase(c, Register(c, s, w))
  {
    var s' := Register(c, s, w);
    CountsFull(s'.workers);
    if s'.initialized == c.n {
      forall u: nat | u < c.n ensures s'.workers[u].pc.AwaitStart? {
        assert RegisteredBit(s'.workers[u]) == 1;
      }
    }
  }

  lemma RegisterPhase(c: Config, s: State, w: nat)
    requires Typed(c, s) && Counted(s) && Phase(c, s)
    requires w < c.n && s.workers[w].pc.Registering? && !HoldsStartMutex(s.main)
    ensures var s' := Register(c, s, w); Counted(s') && Phase(c, s')
  {
    RegisterCounts(c, s, w);
    if s.main.Creating? {
      RegisterWhileCreating(c, s, w);
    } else {
      RegisterWhileMainWaits(c, s, w);
    }
  }

  lemma RegisterRest(c: Config, s: State, w: nat)
    requires Typed(c, s) && PathsOk(c, s) && Errors(c.tree, s) && Balanced(c, s) && CountedMatches(c, s)
    requires w < c.n && s.workers[w].pc.Registering?
    ensures var s' := Register(c, s, w);
      Typed(c, s') && PathsOk(c, s') && Errors(c.tree, s') && Balanced(c, s') && CountedMatches(c, s')
  {
    var s' := Register(c, s, w);
    var k' := s.workers[w].(pc := AwaitStart);
    StartStepsKeepTyped(c, s, w);
    ErrorsAfterMove(c.tree, s, s', w, k');
    SameViews(s.workers, w, k');
    BalanceUntouched(c, s, s');
    assert WorkerPaths(c.tree, k');
  }

  lemma RegisterKeepsInv(c: Config, s: State, w: nat)
    requires Inv(c, s) && w < c.n && s.workers[w].pc.Registering? && !HoldsStartMutex(s.main)
    ensures Inv(c, Register(c, s, w))
  {
    RegisterPhase(c, s, w);
    RegisterSleepers(c, s, w);
    RegisterRest(c, s, w);
  }

  function Release(s: State, w: nat): State
    requires w < |s.workers|
  {
    Set(s, w, s.workers[w].(pc := FirstCheck))
  }

  lemma ReleaseSleepers(c: Config, s: State, w: nat)
    requires Typed(c, s) && Phase(c, s) && SleepersOk(s) && w < c.n && s.workers[w].pc.Released?
    ensures var s' := Release(s, w); SleepersOk(s') && Watched(s')
  {
    SleepersAfterPlainStep(s.workers, s.threadQ, s.done, w, s.workers[w].(pc := FirstCheck));
    WatchedByStepper(Release(s, w), w);
  }

  lemma ReleasePhase(c: Config, s: State, w: nat)
    requires Typed(c, s) && Counted(s) && Phase(c, s) && w < c.n && s.workers[w].pc.Released?
    ensures var s' := Release(s, w); Counted(s') && Phase(c, s')
  {
    var s' := Release(s, w);
    var k' := s.workers[w].(pc := FirstCheck);
    CountedAfterSet(s, s', w, k');
    FailedAtMostAll(c, s);
    if s.main.AwaitSleep? {
      PhaseAfterSearchStep(c, s, s', w, k');
    } else {
      assert s.main.BeforeSleepWait?;
    }
  }

  lemma ReleaseRest(c: Config, s: State, w: nat)
    requires Typed(c, s) && PathsOk(c, s) && Errors(c.tree, s) && Balanced(c, s) && w < c.n && s.workers[w].pc.Released?
    ensures var s' := Release(s, w); Typed(c, s') && PathsOk(c, s') && Errors(c.tree, s') && Balanced(c, s')
  {
    var s' := Release(s, w);
    var k' := s.workers[w].(pc := FirstCheck);
    ErrorsAfterMove(c.tree, s, s', w, k');
    SameViews(s.workers, w, k');
    BalanceUntouched(c, s, s');
    assert WorkerPaths(c.tree, k');
  }

  lemma ReleaseKeepsInv(c: Config, s: State, w: nat)
    requires Inv(c, s) && w < c.n && s.workers[w].pc.Released?
    ensures Inv(c, Release(s, w))
  {
    ReleasePhase(c, s, w);
    ReleaseSleepers(c, s, w);
    ReleaseRest(c, s, w);
  }

  lemma WorkerKeepsInv(c: Config, s: State, w: nat)
    requires Inv(c, s) && w < c.n && WorkerEnabled(c, s, w)
    ensures Inv(c, NextWorker(c, s, w))
  {
    match s.workers[w].pc
    case Registering => RegisterKeepsInv(c, s, w);
    case Released => ReleaseKeepsInv(c, s, w);
    case FirstCheck => TakeKeepsInv(c, s, w);
    case Scanning => ScanKeepsInv(c, s, w);
    case Holding(_, _) => DeliverKeepsInv(c, s, w);
    case Passing(_, _, _, _) => PassKeepsInv(c, s, w);
    case Retiring => FallAsleepKeepsInv(c, s, w);
    case Woken => ResumeKeepsInv(c, s, w);
    case Dying => DieKeepsInv(c, s, w);
    case _ =>
  }

  // ---------------------------------------------------------------- steps of main

  /** Main moves and touches nothing else. */
  lemma MainMoveKeepsInv(c: Config, s: State, m: MainPc)
    requires Inv(c, s) && Typed(c, s.(main := m)) && Phase(c, s.(main := m))
    ensures Inv(c, s.(main := m))
  {
  }

  lemma CreateSleepers(c: Config, s: State, w: nat, m: MainPc)
    requires Typed(c, s) && Phase(c, s) && SleepersOk(s) && Counted(s) && w < c.n && s.workers[w].pc.Uncreated?
    ensures var s' := Create(s, w).(main := m); Counted(s') && SleepersOk(s') && Watched(s')
  {
    var s' := Create(s, w).(main := m);
    var k' := s.workers[w].(pc := Registering);
    CountedAfterSet(s, s', w, k');
    SleepersAfterPlainStep(s.workers, s.threadQ, s.done, w, k');
    WatchedByStepper(s', w);
  }

  lemma CreatePhase(c: Config, s: State, w: nat, m: MainPc)
    requires Typed(c, s) && Phase(c, s) && w < c.n
    requires (s.main == Creating(w) && w < c.n - 1 && m == Creating(w + 1))
      || (s.main.CreatingLast? && w == c.n - 1 && m == BeforeInitWait)
    requires Counted(Create(s, w).(main := m))
    ensures Phase(c, Create(s, w).(main := m))
  {
    var s' := Create(s, w).(main := m);
    CountsFull(s'.workers);
    assert RegisteredBit(s'.workers[w]) == 0;
  }

  lemma CreateRest(c: Config, s: State, w: nat, m: MainPc)
    requires Typed(c, s) && PathsOk(c, s) && Errors(c.tree, s) && Balanced(c, s)
    requires w < c.n && s.workers[w].pc.Uncreated? && Typed(c, s.(main := m))
    ensures var s' := Create(s, w).(main := m); Typed(c, s') && PathsOk(c, s') && Errors(c.tree, s') && Balanced(c, s')
  {
    var s' := Create(s, w).(main := m);
    var k' := s.workers[w].(pc := Registering);
    ErrorsAfterMove(c.tree, s, s', w, k');
    SameViews(s.workers, w, k');
    BalanceUntouched(c, s, s');
    assert WorkerPaths(c.tree, k');
  }

  lemma CreateKeepsInv(c: Config, s: State, w: nat, m: MainPc)
    requires Inv(c, s) && w < c.n
    requires (s.main == Creating(w) && w < c.n - 1 && m == Creating(w + 1))
      || (s.main.CreatingLast? && w == c.n - 1 && m == BeforeInitWait)
    ensures Inv(c, Create(s, w).(main := m))
  {
    CreateSleepers(c, s, w, m);
    CreatePhase(c, s, w, m);
    CreateRest(c, s, w, m);
  }

  function Broadcasted(s: State): State {
    s.(main := BeforeSleepWait, workers := Broadcast(s.workers))
  }

  lemma BroadcastCounts(c: Config, s: State)
    requires Typed(c, s) && Counted(s)
    ensures Counted(Broadcasted(s)) && Typed(c, Broadcasted(s))
  {
    var s' := Broadcasted(s);
    assert RegisteredBits(s'.workers) == RegisteredBits(s.workers);
    assert FailedBits(s'.workers) == FailedBits(s.workers);
  }

  lemma BroadcastPhase(c: Config, s: State)
    requires Typed(c, s) && Phase(c, s) && s.main.Broadcasting? && IsConfig(c)
    ensures var s' := Broadcasted(s); Phase(c, s') && Watched(s') && SleepersOk(s')
  {
    var s' := Broadcasted(s);
    forall u: nat | u < c.n ensures s'.workers[u].pc.Released? && s'.workers[u].dir == None {
      assert s'.workers[u] == Wake(s.workers[u]);
    }
    assert Early(s'.workers[0].pc);
  }

  lemma BroadcastRest(c: Config, s: State)
    requires Typed(c, s) && Phase(c, s) && PathsOk(c, s) && Errors(c.tree, s) && Balanced(c, s) && s.main.Broadcasting?
    ensures var s' := Broadcasted(s); PathsOk(c, s') && Errors(c.tree, s') && Balanced(c, s')
  {
    var s' := Broadcasted(s);
    assert forall u: nat :: u < c.n ==> s'.workers[u] == s.workers[u].(pc := Released);
    assert ViewsOf(s'.workers) == ViewsOf(s.workers);
    BalanceUntouched(c, s, s');
    forall u | 0 <= u < |s'.workers| ensures WorkerPaths(c.tree, s'.workers[u]) {
      assert WorkerPaths(c.tree, s.workers[u]);
    }
  }

  lemma ShutdownSignalSleepers(c: Config, s: State, i: nat)
    requires Typed(c, s) && Counted(s) && Phase(c, s) && SleepersOk(s) && s.main == Signalling(i) && i < c.n
    ensures i < |s.threadQ| && s.workers[s.threadQ[i]].pc.Asleep?
    ensures var s' := SignalWorker(s, s.threadQ[i]).(main := Signalling(i + 1)); Counted(s') && SleepersOk(s')
  {
    var w := s.threadQ[i];
    CountedAfterSignal(s, w);
    SleepersAfterShutdownSignal(s.workers, s.threadQ, w);
  }

  lemma ShutdownSignalPhase(c: Config, s: State, i: nat)
    requires Typed(c, s) && Phase(c, s) && SleepersOk(s) && s.main == Signalling(i) && i < c.n
    ensures i < |s.threadQ| && s.workers[s.threadQ[i]].pc.Asleep?
    ensures Phase(c, SignalWorker(s, s.threadQ[i]).(main := Signalling(i + 1)))
  {
    var w := s.threadQ[i];
    forall j | 0 <= j < c.n && j != i ensures s.threadQ[j] != w {
      assert j < i ==> s.threadQ[j] != s.threadQ[i];
    }
  }

  lemma ShutdownSignalRest(c: Config, s: State, w: nat)
    requires Typed(c, s) && PathsOk(c, s) && Errors(c.tree, s) && Balanced(c, s) && Watched(s)
    requires w < c.n && s.workers[w].pc.Asleep? && s.workers[w].dir == None
    ensures var s' := SignalWorker(s, w);
      Typed(c, s') && PathsOk(c, s') && Errors(c.tree, s') && Balanced(c, s') && Watched(s')
  {
    var s' := SignalWorker(s, w);
    var k' := s.workers[w].(pc := Woken);
    ErrorsAfterMove(c.tree, s, s', w, k');
    SameViews(s.workers, w, k');
    BalanceUntouched(c, s, s');
    WatchedByOthers(s, s', w, k');
    assert WorkerPaths(c.tree, k');
  }

  lemma MainIsAside(c: Config, s: State, m: MainPc)
    requires Typed(c, s) && PathsOk(c, s) && Watched(s) && Balanced(c, s) && CountedMatches(c, s) && Errors(c.tree, s)
    requires Typed(c, s.(main := m))
    ensures var s' := s.(main := m);
      PathsOk(c, s') && Watched(s') && Balanced(c, s') && CountedMatches(c, s') && Errors(c.tree, s')
  {
  }

  lemma ShutdownPhase(c: Config, s: State)
    requires Typed(c, s) && Phase(c, s) && SleepersOk(s) && s.main.WokenSleep? && s.failed < c.n
    ensures var s' := s.(main := Signalling(0), done := true); Phase(c, s') && SleepersOk(s')
  {
    assert Quiet(c, s);
  }

  lemma ShutdownKeepsInv(c: Config, s: State)
    requires Inv(c, s) && s.main.WokenSleep? && s.failed < c.n
    ensures Inv(c, s.(main := Signalling(0), done := true))
  {
    ShutdownPhase(c, s);
    MainAndDoneAreAside(c, s, Signalling(0), true);
  }

  lemma MainAndDoneAreAside(c: Config, s: State, m: MainPc, done: bool)
    requires Typed(c, s) && Counted(s) && PathsOk(c, s) && Watched(s) && Balanced(c, s) && CountedMatches(c, s)
      && Errors(c.tree, s)
    requires Typed(c, s.(main := m))
    ensures var s' := s.(main := m, done := done);
      Typed(c, s') && Counted(s') && PathsOk(c, s') && Watched(s') && Balanced(c, s') && CountedMatches(c, s')
        && Errors(c.tree, s')
  {
  }

  /** The moves of main that touch only its own place. */
  predicate MovesAlone(c: Config, s: State) {
    match s.main
    case Creating(i) => i >= c.n - 1
    case BeforeInitWait => true
    case WokenInit => true
    case BeforeQueueLock => true
    case BeforeSleepWait => true
    case WokenSleep => s.failed == c.n
    case Signalling(i) => i >= |s.threadQ|
    case Joining(_) => true
    case _ => false
  }

  lemma WalkEndsWithAllSignalled(c: Config, s: State)
    requires IsConfig(c) && Typed(c, s) && Phase(c, s) && SleepersOk(s) && s.main == Signalling(c.n)
    ensures Phase(c, s.(main := Joining(0)))
  {
    Pigeonhole(s.threadQ, c.n);
    forall w: nat | w < c.n ensures !s.workers[w].pc.Asleep? {
      assert w in s.threadQ;
    }
  }

  lemma MainMovePhase(c: Config, s: State)
    requires IsConfig(c) && Typed(c, s) && Phase(c, s) && SleepersOk(s) && MainEnabled(c, s) && MovesAlone(c, s)
    ensures Phase(c, NextMain(c, s))
  {
    if s.main.Signalling? {
      WalkEndsWithAllSignalled(c, s);
    }
  }

  lemma MainMovesAlone(c: Config, s: State)
    requires IsConfig(c) && Typed(c, s) && MainEnabled(c, s) && MovesAlone(c, s)
    ensures NextMain(c, s) == s.(main := NextMain(c, s).main)
  {
  }

  lemma MainMoveStepKeepsInv(c: Config, s: State, s': State)
    requires Inv(c, s) && MainEnabled(c, s) && MovesAlone(c, s) && s' == NextMain(c, s)
    ensures Inv(c, s')
  {
    MainKeepsTyped(c, s);
    MainMovePhase(c, s);
    MainMovesAlone(c, s);
    MainMoveKeepsInv(c, s, s'.main);
  }

  lemma BroadcastKeepsInv(c: Config, s: State)
    requires Inv(c, s) && s.main.Broadcasting?
    ensures Inv(c, Broadcasted(s))
  {
    BroadcastCounts(c, s);
    BroadcastPhase(c, s);
    BroadcastRest(c, s);
  }

  lemma MainChanges(c: Config, s: State)
    requires IsConfig(c) && Typed(c, s) && MainEnabled(c, s) && !MovesAlone(c, s)
    ensures s.main.Creating? ==>
      s.main.next < c.n - 1 && NextMain(c, s) == Create(s, s.main.next).(main := Creating(s.main.next + 1))
    ensures s.main.CreatingLast? ==> NextMain(c, s) == Create(s, c.n - 1).(main := BeforeInitWait)
    ensures s.main.WokenSleep? ==> s.failed != c.n && NextMain(c, s) == s.(main := Signalling(0), done := true)
  {
  }

  lemma CreateStepKeepsInv(c: Config, s: State, s': State)
    requires Inv(c, s) && MainEnabled(c, s) && !MovesAlone(c, s) && s' == NextMain(c, s)
    requires s.main.Creating? || s.main.CreatingLast?
    ensures Inv(c, s')
  {
    MainChanges(c, s);
    if s.main.Creating? {
      CreateKeepsInv(c, s, s.main.next, Creating(s.main.next + 1));
    } else {
      CreateKeepsInv(c, s, c.n - 1, BeforeInitWait);
    }
  }

  lemma StartShutdownKeepsInv(c: Config, s: State, s': State)
    requires Inv(c, s) && MainEnabled(c, s) && !MovesAlone(c, s) && s' == NextMain(c, s) && s.main.WokenSleep?
    ensures Inv(c, s')
  {
    MainChanges(c, s);
    FailedAtMostAll(c, s);
    ShutdownKeepsInv(c, s);
  }

  lemma ShutdownSignalPlaces(c: Config, s: State, i: nat, s': State)
    requires Typed(c, s) && Counted(s) && Phase(c, s) && SleepersOk(s) && s.main == Signalling(i) && i < c.n
      && i < |s.threadQ|
    requires s' == SignalWorker(s, s.threadQ[i]).(main := Signalling(i + 1))
    ensures Typed(c, s') && Counted(s') && Phase(c, s') && SleepersOk(s')
  {
    ShutdownSignalPhase(c, s, i);
    ShutdownSignalSleepers(c, s, i);
  }

  lemma ShutdownSignalBooks(c: Config, s: State, w: nat, m: MainPc, s': State)
    requires Typed(c, s) && PathsOk(c, s) && Errors(c.tree, s) && Balanced(c, s) && Watched(s) && CountedMatches(c, s)
    requires w < c.n && s.workers[w].pc.Asleep? && s.workers[w].dir == None && Typed(c, s')
      && s' == SignalWorker(s, w).(main := m)
    ensures PathsOk(c, s') && Watched(s') && Balanced(c, s') && CountedMatches(c, s') && Errors(c.tree, s')
  {
    ShutdownSignalRest(c, s, w);
    MainIsAside(c, SignalWorker(s, w), m);
  }

  lemma NextSleeperIsIdle(c: Config, s: State, i: nat)
    requires Typed(c, s) && Phase(c, s) && SleepersOk(s) && s.main == Signalling(i) && i < c.n
    ensures i < |s.threadQ| && s.workers[s.threadQ[i]].pc.Asleep? && s.workers[s.threadQ[i]].dir == None
  {
  }

  lemma SignallingInRange(c: Config, s: State)
    requires Phase(c, s) && s.main.Signalling?
    ensures |s.threadQ| == c.n
  {
  }

  /** Worker w has been signalled, and main's walk has come to position next. */
  function WokenAt(s: State, w: nat, next: nat): State
    requires w < |s.workers|
  {
    s.(workers := s.workers[w := s.workers[w].(pc := Woken)], main := Signalling(next))
  }

  lemma ShutdownStep(c: Config, s: State)
    requires IsConfig(c) && Typed(c, s) && Phase(c, s) && SleepersOk(s)
    requires MainEnabled(c, s) && !MovesAlone(c, s) && s.main.Signalling?
    ensures var i := s.main.next;
      i < |s.threadQ| && s.threadQ[i] < |s.workers| && NextMain(c, s) == WokenAt(s, s.threadQ[i], i + 1)
  {
    SignallingInRange(c, s);
    NextSleeperIsIdle(c, s, s.main.next);
  }

  lemma OtherMovesOfMain(c: Config, s: State)
    requires IsConfig(c) && Typed(c, s) && MainEnabled(c, s) && !MovesAlone(c, s)
    ensures s.main.Creating? || s.main.CreatingLast? || s.main.Broadcasting? || s.main.WokenSleep? || s.main.Signalling?
    ensures s.main.Broadcasting? ==> NextMain(c, s) == Broadcasted(s)
  {
  }

  lemma ShutdownSignalKeepsInv(c: Config, s: State, i: nat, s': State)
    requires Typed(c, s) && Counted(s) && Phase(c, s) && SleepersOk(s) && PathsOk(c, s) && Watched(s) && Balanced(c, s)
    requires CountedMatches(c, s) && Errors(c.tree, s) && IsConfig(c)
    requires s.main == Signalling(i) && i < |s.threadQ| && s.threadQ[i] < |s.workers|
    requires s' == WokenAt(s, s.threadQ[i], i + 1)
    ensures Inv(c, s')
  {
    SignallingInRange(c, s);
    NextSleeperIsIdle(c, s, i);
    ShutdownSignalPlaces(c, s, i, s');
    ShutdownSignalBooks(c, s, s.threadQ[i], Signalling(i + 1), s');
  }

  lemma BroadcastStepKeepsInv(c: Config, s: State, s': State)
    requires Inv(c, s) && MainEnabled(c, s) && !MovesAlone(c, s) && s' == NextMain(c, s) && s.main.Broadcasting?
    ensures Inv(c, s')
  {
    OtherMovesOfMain(c, s);
    BroadcastKeepsInv(c, s);
  }

  lemma MainKeepsInv(c: Config, s: State, s': State)
    requires Inv(c, s) && MainEnabled(c, s) && s' == NextMain(c, s)
    ensures Inv(c, s')
  {
    if MovesAlone(c, s) {
      MainMoveStepKeepsInv(c, s, s');
    } else if s.main.Creating? || s.main.CreatingLast? {
      CreateStepKeepsInv(c, s, s');
    } else if s.main.WokenSleep? {
      StartShutdownKeepsInv(c, s, s');
    } else if s.main.Broadcasting? {
      BroadcastStepKeepsInv(c, s, s');
    } else {
      OtherMovesOfMain(c, s);
      ShutdownStep(c, s);
      ShutdownSignalKeepsInv(c, s, s.main.next, s');
    }
  }

  /** The invariant holds after every schedule. */
  lemma {:induction false} ReachableInv(c: Config, schedule: seq<Actor>)
    requires IsConfig(c) && Execute(c, schedule).Some?
    ensures Inv(c, Execute(c, schedule).value)
  {
    if schedule == [] {
      InitInv(c);
    } else {
      var init, a := schedule[..|schedule| - 1], schedule[|schedule| - 1];
      ReachableInv(c, init);
      var s := Execute(c, init).value;
      match a
      case Main => MainKeepsInv(c, s, Execute(c, schedule).value);
      case Thread(w) => WorkerKeepsInv(c, s, w);
    }
  }
}
