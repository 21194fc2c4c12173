/** With one thread the directories are taken up in breadth-first order. */
module SearchOrder {
  import opened Options
  import opened SearchTree
  import opened SearchProtocol
  import opened SearchLedger
  import opened SearchInvariant
  import opened SearchSteps
  import opened SearchPreservation
  import opened SearchTheorems

  /** The subdirectories listed from position k of a directory on, in order. */
  function SubdirsFrom(items: seq<Item>, k: nat): seq<nat>
    requires k <= |items|
    decreases |items| - k
  {
    if k == |items| then []
    else (if IsSubdirectory(items[k]) then [items[k].kind.id] else []) + SubdirsFrom(items, k + 1)
  }

  /** A breadth-first traversal under way: the directories visited and those waiting. */
  datatype Traversal = Traversal(visited: seq<nat>, waiting: seq<nat>)

  /** One round: the first waiting directory is visited and its subdirectories wait. */
  function Visit(t: Tree, b: Traversal): Traversal {
    if b.waiting == [] || b.waiting[0] >= |t.items| then b
    else Traversal(b.visited + [b.waiting[0]], b.waiting[1..] + SubdirsFrom(t.items[b.waiting[0]], 0))
  }

  /** The traversal after k rounds. */
  function BreadthFirst(t: Tree, k: nat): Traversal {
    if k == 0 then Traversal([], [0]) else Visit(t, BreadthFirst(t, k - 1))
  }

  /** The subdirectories of a directory are one deeper. */
  lemma {:induction false} SubdirsAreOneDeeper(t: Tree, d: nat, k: nat)
    requires IsTree(t) && d < |t.items| && k <= |t.items[d]|
    ensures forall c :: c in SubdirsFrom(t.items[d], k) ==> c < |t.items| && Depth(t, c) == Depth(t, d) + 1
    decreases |t.items[d]| - k
  {
    if k < |t.items[d]| {
      SubdirsAreOneDeeper(t, d, k + 1);
      assert ListsProperly(t, d, k);
      if IsSubdirectory(t.items[d][k]) {
        assert ListedAt(t, t.items[d][k].kind.id);
      }
    }
  }

  /** Depths never fall along the directories, and none is more than one deeper than the one at `first`. */
  ghost predicate Levelled(t: Tree, ds: seq<nat>, first: nat)
    requires IsTree(t)
  {
    && (forall i :: 0 <= i < |ds| ==> ds[i] < |t.items|)
    && (forall i, j :: 0 <= i < j < |ds| ==> Depth(t, ds[i]) <= Depth(t, ds[j]))
    && (forall i, j :: first <= i < j < |ds| ==> Depth(t, ds[j]) <= Depth(t, ds[i]) + 1)
  }

  /** Visiting the directory at `first` and letting its subdirectories wait keeps the levels. */
  lemma LevelledByVisit(t: Tree, ds: seq<nat>, first: nat, children: seq<nat>)
    requires IsTree(t) && first < |ds| && Levelled(t, ds, first)
    requires forall c :: c in children ==> c < |t.items| && Depth(t, c) == Depth(t, ds[first]) + 1
    ensures Levelled(t, ds + children, first + 1)
  {
    forall i | 0 <= i < |ds + children|
      ensures (ds + children)[i] < |t.items|
        && (first <= i ==> Depth(t, ds[first]) <= Depth(t, (ds + children)[i]) <= Depth(t, ds[first]) + 1)
      ensures |ds| <= i ==> Depth(t, (ds + children)[i]) == Depth(t, ds[first]) + 1
    {
      assert i >= |ds| ==> (ds + children)[i] in children;
    }
    forall i, j | 0 <= i < j < |ds + children| ensures Depth(t, (ds + children)[i]) <= Depth(t, (ds + children)[j]) {
      assert i < |ds| ==> Depth(t, ds[i]) <= Depth(t, ds[first]) + 1;
    }
  }

  lemma VisitKeepsLevels(t: Tree, b: Traversal)
    requires IsTree(t) && Levelled(t, b.visited + b.waiting, |b.visited|)
    ensures var b' := Visit(t, b); Levelled(t, b'.visited + b'.waiting, |b'.visited|)
  {
    var ds := b.visited + b.waiting;
    if b.waiting != [] {
      var d := b.waiting[0];
      assert ds[|b.visited|] == d;
      var children := SubdirsFrom(t.items[d], 0);
      SubdirsAreOneDeeper(t, d, 0);
      LevelledByVisit(t, ds, |b.visited|, children);
      var b' := Visit(t, b);
      assert b'.visited + b'.waiting == ds + children && |b'.visited| == |b.visited| + 1;
    }
  }

  /** The traversal goes by levels. */
  lemma {:induction false} BreadthFirstByLevels(t: Tree, k: nat)
    requires IsTree(t)
    ensures var b := BreadthFirst(t, k); Levelled(t, b.visited + b.waiting, |b.visited|)
  {
    if k > 0 {
      BreadthFirstByLevels(t, k - 1);
      VisitKeepsLevels(t, BreadthFirst(t, k - 1));
    }
  }

  /** What the only worker has still to queue: the directory it holds and those further on in the one it reads. */
  function Ahead(t: Tree, cursor: seq<nat>, v: View): seq<nat>
    requires CursorsTyped(t, cursor)
  {
    (if v.carry.Some? then [v.carry.value] else [])
    + (if v.scan.Some? && v.scan.value < |t.items| then SubdirsFrom(t.items[v.scan.value], cursor[v.scan.value])
      else [])
  }

  /** The log and the work left are those of a breadth-first traversal after as many rounds as the log is long. */
  ghost predicate Ordered(t: Tree, queue: seq<nat>, cursor: seq<nat>, log: seq<nat>, v: View)
    requires CursorsTyped(t, cursor)
  {
    BreadthFirst(t, |log|) == Traversal(log, queue + Ahead(t, cursor, v))
  }

  ghost predicate InOrder(c: Config, s: State)
    requires Typed(c, s) && c.n == 1
  {
    Ordered(c.tree, QueuedDirs(s.dirQ), s.cursor, s.log, ViewOf(s.workers[0]))
  }

  lemma SubdirsFromHere(items: seq<Item>, k: nat)
    requires k < |items|
    ensures SubdirsFrom(items, k)
      == (if IsSubdirectory(items[k]) then [items[k].kind.id] else []) + SubdirsFrom(items, k + 1)
  {
  }

  lemma ReadInOrder(t: Tree, queue: seq<nat>, cursor: seq<nat>, log: seq<nat>, d: nat)
    requires CursorsTyped(t, cursor) && d < |t.items| && cursor[d] < |t.items[d]|
    requires Ordered(t, queue, cursor, log, View(Some(d), None))
    ensures CursorsTyped(t, cursor[d := cursor[d] + 1])
    ensures var item := t.items[d][cursor[d]];
      Ordered(t, queue, cursor[d := cursor[d] + 1], log,
        View(Some(d), if IsSubdirectory(item) then Some(item.kind.id) else None))
  {
    var rest := SubdirsFrom(t.items[d], cursor[d] + 1);
    SubdirsFromHere(t.items[d], cursor[d]);
    assert [] + rest == rest;
  }

  lemma TakeInOrder(t: Tree, queue: seq<nat>, cursor: seq<nat>, log: seq<nat>, v: View)
    requires CursorsTyped(t, cursor) && Ordered(t, queue, cursor, log, v) && Ahead(t, cursor, v) == []
    requires queue != [] && queue[0] < |t.items| && cursor[queue[0]] == 0
    ensures Ordered(t, queue[1..], cursor, log + [queue[0]], View(Some(queue[0]), None))
  {
    var b := BreadthFirst(t, |log|);
    assert b.waiting == queue;
    var rest := SubdirsFrom(t.items[queue[0]], 0);
    assert [] + rest == rest;
    assert |log + [queue[0]]| - 1 == |log|;
  }

  lemma EnqueueInOrder(t: Tree, queue: seq<nat>, cursor: seq<nat>, log: seq<nat>, d: nat, child: nat)
    requires CursorsTyped(t, cursor) && d < |t.items| && Ordered(t, queue, cursor, log, View(Some(d), Some(child)))
    ensures Ordered(t, queue + [child], cursor, log, View(Some(d), None))
  {
    var rest := SubdirsFrom(t.items[d], cursor[d]);
    assert [] + rest == rest;
    assert queue + ([child] + rest) == (queue + [child]) + rest;
  }

  lemma OrderAfterRead(c: Config, s: State, d: nat)
    requires IsConfig(c) && Typed(c, s) && c.n == 1 && InOrder(c, s)
    requires s.workers[0].pc.Scanning? && s.workers[0].dir == Some(d) && s.cursor[d] < |c.tree.items[d]|
    ensures var s' := ReadEntry(c, s, 0, d); Typed(c, s') && InOrder(c, s')
  {
    ReadKeepsTyped(c, s, 0, d);
    ReadInOrder(c.tree, QueuedDirs(s.dirQ), s.cursor, s.log, d);
  }

  lemma OrderAfterRetiring(c: Config, s: State)
    requires Typed(c, s) && c.n == 1 && InOrder(c, s) && MayTake(c, s, 0) && s.dirQ == []
    requires Typed(c, TakeDirectory(s, 0))
    ensures InOrder(c, TakeDirectory(s, 0))
  {
    NothingAhead(c, s);
  }

  lemma OrderAfterTaking(c: Config, s: State)
    requires Typed(c, s) && c.n == 1 && InOrder(c, s) && MayTake(c, s, 0) && s.dirQ != []
    requires Typed(c, TakeDirectory(s, 0)) && s.cursor[s.dirQ[0].dir] == 0
    ensures InOrder(c, TakeDirectory(s, 0))
  {
    NothingAhead(c, s);
    var queue := QueuedDirs(s.dirQ);
    assert queue[0] == s.dirQ[0].dir;
    assert QueuedDirs(s.dirQ[1..]) == queue[1..];
    TakeInOrder(c.tree, queue, s.cursor, s.log, ViewOf(s.workers[0]));
  }

  lemma OrderAfterTake(c: Config, s: State)
    requires Typed(c, s) && c.n == 1 && InOrder(c, s) && MayTake(c, s, 0)
    requires s.dirQ != [] ==> s.cursor[s.dirQ[0].dir] == 0
    ensures var s' := TakeDirectory(s, 0); Typed(c, s') && InOrder(c, s')
  {
    TakeKeepsTyped(c, s, 0);
    if s.dirQ == [] {
      OrderAfterRetiring(c, s);
    } else {
      OrderAfterTaking(c, s);
    }
  }

  lemma NothingAhead(c: Config, s: State)
    requires Typed(c, s) && c.n == 1 && MayTake(c, s, 0)
    ensures Ahead(c.tree, s.cursor, ViewOf(s.workers[0])) == []
  {
  }

  lemma OnlyTheWorkerSleeps(c: Config, s: State)
    requires Typed(c, s) && SleepersOk(s) && !s.done && c.n == 1
    ensures s.threadQ != [] ==> s.workers[0].pc.Asleep?
  {
    assert s.threadQ != [] ==> s.threadQ[0] == 0;
  }

  /** The only worker never finds a sleeper: it queues what it opens. */
  lemma OrderAfterDeliver(c: Config, s: State)
    requires IsConfig(c) && Typed(c, s) && Phase(c, s) && SleepersOk(s) && c.n == 1 && InOrder(c, s)
      && s.workers[0].pc.Holding?
    ensures var s' := Deliver(s, 0); Typed(c, s') && InOrder(c, s')
  {
    SearchingWhileMainWaits(c, s, 0);
    QueueStepsKeepTyped(c, s, 0);
    OnlyTheWorkerSleeps(c, s);
    var k := s.workers[0];
    EnqueueInOrder(c.tree, QueuedDirs(s.dirQ), s.cursor, s.log, k.dir.value, k.pc.child);
    assert QueuedDirs(Deliver(s, 0).dirQ) == QueuedDirs(s.dirQ) + [k.pc.child];
  }

  /** Steps that leave the queue, the log, the cursors and what is ahead as they were. */
  lemma OrderUntouched(c: Config, s: State, s': State)
    requires Typed(c, s) && Typed(c, s') && c.n == 1 && InOrder(c, s)
    requires s'.dirQ == s.dirQ && s'.log == s.log && s'.cursor == s.cursor
    requires Ahead(c.tree, s.cursor, ViewOf(s'.workers[0])) == Ahead(c.tree, s.cursor, ViewOf(s.workers[0]))
    ensures InOrder(c, s')
  {
  }

  /** What the invariant says of a single worker's step. */
  ghost predicate Basis(c: Config, s: State) {
    IsConfig(c) && Typed(c, s) && Phase(c, s) && SleepersOk(s) && Balanced(c, s)
  }

  lemma OrderAfterScan(c: Config, s: State)
    requires IsConfig(c) && Typed(c, s) && Balanced(c, s) && c.n == 1 && InOrder(c, s) && WorkerEnabled(c, s, 0)
      && s.workers[0].pc.Scanning?
    ensures var s' := Scan(c, s, 0); Typed(c, s') && InOrder(c, s')
  {
    var d := s.workers[0].dir.value;
    ScanKeepsTyped(c, s, 0);
    if s.cursor[d] < |c.tree.items[d]| {
      OrderAfterRead(c, s, d);
    } else if s.workers[0].err {
      OrderUntouched(c, s, Scan(c, s, 0));
    } else {
      if s.dirQ != [] {
        QueuedAreUntouched(c, s);
      }
      OrderAfterTake(c, s);
    }
  }

  /** The only worker passes nothing on, and is woken only to leave. */
  lemma OnlyWorkerIsAlone(c: Config, s: State)
    requires Typed(c, s) && SleepersOk(s) && c.n == 1
    ensures !s.workers[0].pc.Passing?
  {
    if s.workers[0].pc.Passing? {
      PassFacts(s, 0);
      assert false;
    }
  }

  /** The only worker is never woken for work: there is nobody to hand it any. */
  ghost predicate WokenToLeave(s: State) {
    s.done || forall w :: 0 <= w < |s.workers| ==> !s.workers[w].pc.Woken?
  }

  lemma OrderAfterOther(c: Config, s: State)
    requires Typed(c, s) && c.n == 1 && InOrder(c, s) && WorkerEnabled(c, s, 0)
    requires var k := s.workers[0];
      k.pc.Registering? || k.pc.Released? || k.pc.Retiring? || k.pc.Dying? || (k.pc.Woken? && s.done && k.dir == None)
    requires Typed(c, NextWorker(c, s, 0))
    ensures InOrder(c, NextWorker(c, s, 0))
  {
    OrderUntouched(c, s, NextWorker(c, s, 0));
  }

  lemma WorkerKeepsOrder(c: Config, s: State)
    requires Basis(c, s) && c.n == 1 && InOrder(c, s) && WokenToLeave(s) && WorkerEnabled(c, s, 0)
    ensures var s' := NextWorker(c, s, 0); Typed(c, s') && InOrder(c, s')
  {
    OnlyWorkerIsAlone(c, s);
    var pc := s.workers[0].pc;
    if pc.Scanning? {
      OrderAfterScan(c, s);
    } else if pc.FirstCheck? {
      if s.dirQ != [] {
        QueuedAreUntouched(c, s);
      }
      OrderAfterTake(c, s);
    } else if pc.Holding? {
      OrderAfterDeliver(c, s);
    } else {
      if pc.Woken? {
        NoDirectoryAtShutdown(c, s, 0);
      }
      NextKeepsTyped(c, s, Thread(0));
      OrderAfterOther(c, s);
    }
  }

  lemma WorkerKeepsWokenToLeave(c: Config, s: State)
    requires Typed(c, s) && c.n == 1 && WokenToLeave(s) && WorkerEnabled(c, s, 0) && !s.workers[0].pc.Passing?
    ensures WokenToLeave(NextWorker(c, s, 0))
  {
  }

  lemma MainKeepsWokenToLeave(c: Config, s: State)
    requires IsConfig(c) && Typed(c, s) && Phase(c, s) && WokenToLeave(s) && MainEnabled(c, s)
    ensures WokenToLeave(NextMain(c, s))
  {
  }

  lemma MainKeepsOrder(c: Config, s: State)
    requires Basis(c, s) && c.n == 1 && InOrder(c, s) && MainEnabled(c, s)
    ensures var s' := NextMain(c, s); Typed(c, s') && InOrder(c, s')
  {
    var s' := NextMain(c, s);
    NextKeepsTyped(c, s, Main);
    MainKeepsViews(c, s);
    OrderUntouched(c, s, s');
  }

  lemma MainKeepsViews(c: Config, s: State)
    requires IsConfig(c) && Typed(c, s) && Phase(c, s) && SleepersOk(s) && MainEnabled(c, s)
    ensures var s' := NextMain(c, s); s'.dirQ == s.dirQ && s'.log == s.log && s'.cursor == s.cursor
    ensures var s' := NextMain(c, s);
      |s'.workers| == c.n && forall w :: 0 <= w < c.n ==> ViewOf(s'.workers[w]) == ViewOf(s.workers[w])
  {
  }

  ghost predicate Orderly(c: Config, s: State)
    requires c.n == 1
  {
    Typed(c, s) && InOrder(c, s) && WokenToLeave(s)
  }

  lemma MainStepKeepsOrder(c: Config, s: State, s': State)
    requires Basis(c, s) && c.n == 1 && Orderly(c, s) && MainEnabled(c, s) && s' == NextMain(c, s)
    ensures Orderly(c, s')
  {
    MainKeepsOrder(c, s);
    MainKeepsWokenToLeave(c, s);
  }

  lemma WorkerStepKeepsOrder(c: Config, s: State, w: nat, s': State)
    requires Basis(c, s) && c.n == 1 && Orderly(c, s) && w < c.n && WorkerEnabled(c, s, w) && s' == NextWorker(c, s, w)
    ensures Orderly(c, s')
  {
    WorkerKeepsOrder(c, s);
    OnlyWorkerIsAlone(c, s);
    WorkerKeepsWokenToLeave(c, s);
  }

  lemma StartsInOrder(c: Config)
    requires IsConfig(c) && c.n == 1
    ensures Orderly(c, Init(c))
  {
    assert QueuedDirs(Init(c).dirQ) + ([] + []) == [0];
  }

  lemma RunHasBasis(c: Config, schedule: seq<Actor>)
    requires IsConfig(c) && Execute(c, schedule).Some?
    ensures Basis(c, Execute(c, schedule).value)
  {
    ReachableInv(c, schedule);
  }

  /** The log of a single worker is, at every moment, that of a breadth-first traversal of the same length. */
  lemma {:induction false} InOrderThroughout(c: Config, schedule: seq<Actor>)
    requires IsConfig(c) && c.n == 1 && Execute(c, schedule).Some?
    ensures Orderly(c, Execute(c, schedule).value)
  {
    if schedule == [] {
      StartsInOrder(c);
    } else {
      var init := schedule[..|schedule| - 1];
      InOrderThroughout(c, init);
      RunHasBasis(c, init);
      match schedule[|schedule| - 1]
      case Main => MainStepKeepsOrder(c, Execute(c, init).value, Execute(c, schedule).value);
      case Thread(w) => WorkerStepKeepsOrder(c, Execute(c, init).value, w, Execute(c, schedule).value);
    }
  }

  lemma OverMeansNothingWaits(c: Config, s: State)
    requires Typed(c, s) && c.n == 1 && InOrder(c, s) && SearchOver(c, s)
    ensures BreadthFirst(c.tree, |s.log|) == Traversal(s.log, [])
  {
    assert QueuedDirs(s.dirQ) + ([] + []) == [];
  }

  /**
   One thread takes the directories up in breadth-first order: in the order of the traversal, and so none before one
   that lies less deep. The traversal is complete when it reports.
   */
  lemma OneThreadIsBreadthFirst(c: Config, s: State)
    requires Reachable(c, s) && c.n == 1
    ensures BreadthFirst(c.tree, |s.log|).visited == s.log
    ensures forall i, j :: 0 <= i < j < |s.log| ==> Depth(c.tree, s.log[i]) <= Depth(c.tree, s.log[j])
    ensures s.main.Finished? ==> BreadthFirst(c.tree, |c.tree.items|) == Traversal(s.log, [])
  {
    OneThreadFollowsTheTraversal(c, s);
    OneThreadGoesByLevels(c, s);
  }

  lemma OneThreadFollowsTheTraversal(c: Config, s: State)
    requires Reachable(c, s) && c.n == 1
    ensures BreadthFirst(c.tree, |s.log|).visited == s.log
    ensures s.main.Finished? ==> BreadthFirst(c.tree, |c.tree.items|) == Traversal(s.log, [])
  {
    var schedule :| Execute(c, schedule) == Some(s);
    InOrderThroughout(c, schedule);
    if s.main.Finished? {
      FinishedReportsFound(c, s);
      OverOnceDone(c, s);
      OverMeansNothingWaits(c, s);
      ScannedExactlyOnce(c, s);
    }
  }

  lemma OneThreadGoesByLevels(c: Config, s: State)
    requires IsConfig(c) && BreadthFirst(c.tree, |s.log|).visited == s.log
    ensures forall i, j :: 0 <= i < j < |s.log| ==> Depth(c.tree, s.log[i]) <= Depth(c.tree, s.log[j])
  {
    var b := BreadthFirst(c.tree, |s.log|);
    BreadthFirstByLevels(c.tree, |s.log|);
    assert forall i :: 0 <= i < |s.log| ==> (b.visited + b.waiting)[i] == s.log[i];
  }
}
