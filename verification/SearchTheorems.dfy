/** What the search guarantees, for every number of threads, every tree and every interleaving. */
module SearchTheorems {
  import opened Options
  import opened SearchTree
  import opened SearchTotal
  import opened SearchProtocol
  import opened SearchLedger
  import opened SearchInvariant
  import opened SearchSteps
  import opened SearchPreservation
  import opened SearchTermination

  ghost predicate Reachable(c: Config, s: State) {
    IsConfig(c) && exists schedule :: Execute(c, schedule) == Some(s)
  }

  lemma ReachableHasInv(c: Config, s: State)
    requires Reachable(c, s)
    ensures Inv(c, s)
  {
    var schedule :| Execute(c, schedule) == Some(s);
    ReachableInv(c, schedule);
  }

  // ---------------------------------------------------------------- the search is over when main is told so

  /** Every directory of the tree has been read to the end, and none is queued or in anyone's hands. */
  ghost predicate SearchOver(c: Config, s: State)
    requires Typed(c, s)
  {
    && s.dirQ == []
    && (forall w :: 0 <= w < c.n ==> ViewOf(s.workers[w]) == View(None, None))
    && (forall d :: 0 <= d < |c.tree.items| ==> d in s.log && s.cursor[d] == |c.tree.items[d]|)
  }

  /** When nobody holds a directory and none is queued, all directories have been discovered and read. */
  lemma {:induction false} AllRead(c: Config, s: State, d: nat)
    requires IsConfig(c) && Typed(c, s) && Balanced(c, s) && s.dirQ == [] && d < |c.tree.items|
    requires forall w :: 0 <= w < c.n ==> ViewOf(s.workers[w]) == View(None, None)
    ensures Discovered(c.tree, s.cursor, d) && d in s.log && s.cursor[d] == |c.tree.items[d]|
    decreases d
  {
    if d > 0 {
      assert ListedAt(c.tree, d);
      AllRead(c, s, c.tree.links[d].parent);
    }
    assert !CarriedBy(ViewsOf(s.workers), d) && !ScannedBy(ViewsOf(s.workers), d);
    assert d !in QueuedDirs(s.dirQ);
  }

  lemma QuietMeansOver(c: Config, s: State)
    requires IsConfig(c) && Typed(c, s) && Balanced(c, s) && Watched(s) && s.failed == 0
    requires forall w: nat :: w < c.n ==> !Early(s.workers[w].pc) && ViewOf(s.workers[w]) == View(None, None)
    ensures SearchOver(c, s)
  {
    forall d: nat | d < |c.tree.items| ensures d in s.log && s.cursor[d] == |c.tree.items[d]| {
      AllRead(c, s, d);
    }
  }

  lemma AllGoneAtShutdown(c: Config, s: State)
    requires Typed(c, s) && IsConfig(c) && Phase(c, s) && SleepersOk(s) && s.done
    ensures s.failed == 0 && forall w: nat :: w < c.n ==>
      !Early(s.workers[w].pc) && ViewOf(s.workers[w]) == View(None, None)
  {
    NoDirectoryAtShutdown(c, s, 0);
    forall w: nat | w < c.n ensures !Early(s.workers[w].pc) && ViewOf(s.workers[w]) == View(None, None) {
      NoDirectoryAtShutdown(c, s, w);
    }
  }

  lemma ShutdownMeansOver(c: Config, s: State)
    requires IsConfig(c) && Typed(c, s) && Phase(c, s) && SleepersOk(s) && Balanced(c, s) && Watched(s) && s.done
    ensures SearchOver(c, s)
  {
    AllGoneAtShutdown(c, s);
    QuietMeansOver(c, s);
  }

  lemma FullQueueMeansOver(c: Config, s: State)
    requires IsConfig(c) && Typed(c, s) && Counted(s) && SleepersOk(s) && Balanced(c, s) && Watched(s) && !s.done
      && |s.threadQ| == c.n
    ensures SearchOver(c, s)
  {
    FullQueueMeansQuiet(c, s);
    QuietMeansOver(c, s);
  }

  lemma OverOnceDone(c: Config, s: State)
    requires Reachable(c, s) && s.done
    ensures Typed(c, s) && SearchOver(c, s)
  {
    ReachableHasInv(c, s);
    ShutdownMeansOver(c, s);
  }

  lemma OverOnceAllSleep(c: Config, s: State)
    requires Reachable(c, s) && |s.threadQ| == c.n
    ensures Typed(c, s) && SearchOver(c, s)
  {
    ReachableHasInv(c, s);
    if s.done {
      ShutdownMeansOver(c, s);
    } else {
      FullQueueMeansOver(c, s);
    }
  }

  /** Main is woken because all sleep or because all have failed. */
  lemma WokenForSleep(c: Config, s: State)
    requires Phase(c, s) && s.main.WokenSleep? && s.failed < c.n
    ensures |s.threadQ| == c.n
  {
  }

  lemma OverOnceWoken(c: Config, s: State)
    requires Reachable(c, s) && s.main.WokenSleep? && s.failed < c.n
    ensures Typed(c, s) && SearchOver(c, s)
  {
    ReachableHasInv(c, s);
    WokenForSleep(c, s);
    OverOnceAllSleep(c, s);
  }

  /**
   The search never stops early: when the sleepers' count makes a worker signal `all_sleep`, and from the moment
   `done` is set, the whole tree has been read.
   */
  lemma NeverStopsEarly(c: Config, s: State)
    requires Reachable(c, s)
    ensures Typed(c, s)
    ensures s.main.WokenSleep? && s.failed < c.n ==> SearchOver(c, s)
    ensures s.done ==> SearchOver(c, s)
    ensures |s.threadQ| == c.n ==> SearchOver(c, s)
  {
    ReachableIsTyped(c, s);
    if s.main.WokenSleep? && s.failed < c.n {
      OverOnceWoken(c, s);
    }
    if s.done {
      OverOnceDone(c, s);
    }
    if |s.threadQ| == c.n {
      OverOnceAllSleep(c, s);
    }
  }

  lemma ReachableIsTyped(c: Config, s: State)
    requires Reachable(c, s)
    ensures Typed(c, s)
  {
    ReachableHasInv(c, s);
  }

  /** The number printed is the number of files in the whole tree whose name contains the term. */
  lemma ReportsTheTotal(c: Config, s: State)
    requires Reachable(c, s) && s.main.Finished?
    ensures s.main.reported == TotalMatches(c.tree, c.term)
    ensures s.main.reported == |set d: nat, i: nat |
      && d < |c.tree.items| && i < |c.tree.items[d]|
      && c.tree.items[d][i].kind == Regular && c.tree.items[d][i].name != "." && c.tree.items[d][i].name != ".."
      && (exists before: string, after: string :: c.tree.items[d][i].name == before + c.term + after) :: (d, i)|
  {
    TotalIsTheNumberOfFiles(c.tree, c.term);
    FinishedReportsFound(c, s);
    ReachableCounts(c, s);
    OverOnceDone(c, s);
    AllMatchesCounted(c, s);
  }

  lemma FinishedIsDone(c: Config, s: State)
    requires Phase(c, s) && s.main.Finished?
    ensures s.done && s.main.reported == s.found
  {
  }

  lemma FinishedReportsFound(c: Config, s: State)
    requires Reachable(c, s) && s.main.Finished?
    ensures s.done && s.main.reported == s.found
  {
    ReachableHasInv(c, s);
    FinishedIsDone(c, s);
  }

  lemma ReachableCounts(c: Config, s: State)
    requires Reachable(c, s)
    ensures Typed(c, s) && CountedMatches(c, s)
  {
    ReachableHasInv(c, s);
  }

  lemma AllMatchesCounted(c: Config, s: State)
    requires Typed(c, s) && CountedMatches(c, s) && SearchOver(c, s)
    ensures s.found == TotalMatches(c.tree, c.term)
  {
    assert FoundIn(c.tree, s.cursor, c.term)
        == seq(|c.tree.items|, d requires 0 <= d < |c.tree.items| => MatchesIn(c.tree.items[d], |c.tree.items[d]|,
          c.term));
  }

  // ---------------------------------------------------------------- exactly once

  /** d is finished: it was taken up, it has been read to the end, and nobody scans it any more. */
  ghost predicate FinishedWith(c: Config, s: State, d: nat)
    requires Typed(c, s) && d < |c.tree.items|
  {
    d in s.log && s.cursor[d] == |c.tree.items[d]| && !ScannedBy(ViewsOf(s.workers), d)
  }

  /** Every discovered directory is in exactly one place, and in one hand at most. */
  lemma ExactlyOnePlace(c: Config, s: State, d: nat)
    requires Reachable(c, s) && d < |c.tree.items| && Discovered(c.tree, s.cursor, d)
    ensures var queued, scanned, carried, finished :=
        d in QueuedDirs(s.dirQ), ScannedBy(ViewsOf(s.workers), d), CarriedBy(ViewsOf(s.workers), d),
          FinishedWith(c, s, d);
      && (queued || scanned || carried || finished)
      && !(queued && scanned) && !(queued && carried) && !(queued && finished)
      && !(scanned && carried) && !(scanned && finished) && !(carried && finished)
    ensures forall u: nat, v: nat ::
      u < c.n && v < c.n && Holds(ViewOf(s.workers[u]), d) && Holds(ViewOf(s.workers[v]), d) ==> u == v
    ensures forall i: nat, j: nat :: i < |s.dirQ| && j < |s.dirQ| && s.dirQ[i].dir == d && s.dirQ[j].dir == d ==> i == j
  {
    ReachableHasInv(c, s);
  }

  lemma LogIsDistinct(c: Config, s: State)
    requires Reachable(c, s)
    ensures forall i, j :: 0 <= i < j < |s.log| ==> s.log[i] != s.log[j]
    ensures forall d :: d in s.log ==> d < |c.tree.items|
  {
    ReachableHasInv(c, s);
  }

  /** No directory is ever taken up twice, and at the end each has been taken up: the log is a permutation of them. */
  lemma ScannedExactlyOnce(c: Config, s: State)
    requires Reachable(c, s)
    ensures forall i, j :: 0 <= i < j < |s.log| ==> s.log[i] != s.log[j]
    ensures forall d :: d in s.log ==> d < |c.tree.items|
    ensures s.main.Finished? ==> |s.log| == |c.tree.items| && forall d: nat :: d < |c.tree.items| ==> d in s.log
  {
    LogIsDistinct(c, s);
    if s.main.Finished? {
      FinishedReportsFound(c, s);
      OverOnceDone(c, s);
      CoversBelow(s.log, |c.tree.items|);
    }
  }

  lemma CoversBelow(q: seq<nat>, n: nat)
    requires forall i, j :: 0 <= i < j < |q| ==> q[i] != q[j]
    requires forall d: nat :: d in q ==> d < n
    requires forall d: nat :: d < n ==> d in q
    ensures |q| == n
  {
    assert forall i :: 0 <= i < |q| ==> q[i] in q;
    Pigeonhole(q, n);
    SubsetCounted(Below(n), Elements(q));
    DistinctCounted(q);
  }

  /** A directory other than the root was taken up because its entry, in one that was taken up too, had been read. */
  lemma TakenUpWasListed(c: Config, s: State, d: nat)
    requires Reachable(c, s) && d in s.log
    ensures Typed(c, s)
    ensures d != 0 ==> exists e: nat, i: nat ::
      && e < |c.tree.items| && i < s.cursor[e] && e in s.log
      && c.tree.items[e][i].kind == Openable(d) && c.tree.items[e][i].name != "." && c.tree.items[e][i].name != ".."
  {
    ReachableHasInv(c, s);
    if d != 0 {
      var l := c.tree.links[d];
      assert ListedAt(c.tree, d) && Discovered(c.tree, s.cursor, d);
      assert c.tree.items[l.parent][l.index].kind == Openable(d);
    }
  }

  /** Two workers never read directories of the same path. */
  lemma ReadersAreApart(c: Config, s: State, u: nat, v: nat)
    requires Reachable(c, s) && NamesAreProper(c.tree)
    requires u < c.n && v < c.n && s.workers[u].pc.Scanning? && s.workers[v].pc.Scanning?
    requires s.workers[u].path == s.workers[v].path
    ensures u == v
  {
    ReachableHasInv(c, s);
    assert WorkerPaths(c.tree, s.workers[u]) && WorkerPaths(c.tree, s.workers[v]);
    PathsTellDirectoriesApart(c.tree, s.workers[u].dir.value, s.workers[v].dir.value);
    assert Holds(ViewsOf(s.workers)[u], s.workers[u].dir.value) && Holds(ViewsOf(s.workers)[v], s.workers[u].dir.value);
  }

  // ---------------------------------------------------------------- when the program completes

  lemma NothingLockedWhenOver(c: Config, s: State)
    requires Typed(c, s) && Errors(c.tree, s) && SearchOver(c, s) && s.failed == 0
    ensures AllOpen(c.tree)
  {
    forall d: nat ensures !ScannedBy(ViewsOf(s.workers), d) {
    }
    forall d, i | 0 <= d < |c.tree.items| && 0 <= i < |c.tree.items[d]|
      ensures !IsLocked(c.tree.items[d][i])
    {
      assert !LockedBefore(c.tree.items[d], s.cursor[d]);
    }
  }

  /**
   A run that cannot go on has printed the count exactly when every directory of the tree can be opened. Otherwise
   some worker has died of an errno that a failed `opendir` left behind: main has returned without printing if all
   have died, and waits for ever if only some have.
   */
  lemma CompletesIffAllOpen(c: Config, s: State)
    requires Reachable(c, s) && Stuck(c, s)
    ensures s.main.Finished? <==> AllOpen(c.tree)
    ensures s.main.Finished? <==> forall w :: 0 <= w < c.n ==> s.workers[w].pc == Exited(false)
    ensures s.main.Aborted? <==> s.failed == c.n
    ensures s.main.Aborted? <==> forall w :: 0 <= w < c.n ==> s.workers[w].pc.Dying? || s.workers[w].pc == Exited(true)
    ensures !s.main.Finished? && !s.main.Aborted? ==> s.main.AwaitSleep? && 0 < s.failed < c.n
  {
    StuckRun(c, s);
    WorkersAtTheEnd(c, s);
    assert s.workers[0].pc == Exited(false) ==> !s.main.Aborted? && !s.main.AwaitSleep?;
    if s.main.Finished? {
      FinishedReportsFound(c, s);
      OverOnceDone(c, s);
      NothingLockedWhenOver(c, s);
    }
  }

  lemma EndingPhases(c: Config, s: State)
    requires Phase(c, s) && Counted(s)
    ensures s.main.Finished? ==> forall w :: 0 <= w < c.n ==> s.workers[w].pc == Exited(false)
    ensures s.main.Aborted? ==> forall w :: 0 <= w < c.n ==> s.workers[w].pc.Dying? || s.workers[w].pc == Exited(true)
    ensures s.main.AwaitSleep? ==> forall w :: 0 <= w < c.n ==> s.workers[w].pc != Exited(false)
    ensures s.failed < c.n ==> exists w :: 0 <= w < c.n && !(s.workers[w].pc.Dying? || s.workers[w].pc == Exited(true))
  {
    CountsFull(s.workers);
  }

  lemma WorkersAtTheEnd(c: Config, s: State)
    requires Reachable(c, s)
    ensures s.main.Finished? ==> forall w :: 0 <= w < c.n ==> s.workers[w].pc == Exited(false)
    ensures s.main.Aborted? ==> forall w :: 0 <= w < c.n ==> s.workers[w].pc.Dying? || s.workers[w].pc == Exited(true)
    ensures s.main.AwaitSleep? ==> forall w :: 0 <= w < c.n ==> s.workers[w].pc != Exited(false)
    ensures s.failed < c.n ==> exists w :: 0 <= w < c.n && !(s.workers[w].pc.Dying? || s.workers[w].pc == Exited(true))
  {
    ReachableHasInv(c, s);
    EndingPhases(c, s);
  }

  lemma StuckRun(c: Config, s: State)
    requires Reachable(c, s) && Typed(c, s) && Stuck(c, s)
    ensures Errors(c.tree, s) && (s.failed > 0 ==> !AllOpen(c.tree))
    ensures s.main.Finished? ==> s.failed == 0
    ensures s.main.Aborted? ==> s.failed == c.n
    ensures !s.main.Finished? && !s.main.Aborted? ==> s.main.AwaitSleep? && 0 < s.failed < c.n
  {
    ReachableHasInv(c, s);
    StuckOutcomes(c, s);
  }

  // ---------------------------------------------------------------- hand-offs and signals

  /**
   A directory is passed to a worker that is blocked, that nobody else passes to, and that is out of the queue; when
   it is signalled its entry holds the directory together with that directory's own path.
   */
  lemma HandOffIsSound(c: Config, s: State, u: nat)
    requires Reachable(c, s) && u < c.n && s.workers[u].pc.Passing?
    ensures var pc := s.workers[u].pc;
      && pc.sleeper < c.n && s.workers[pc.sleeper].pc.Asleep? && pc.sleeper !in s.threadQ && !s.done
      && (forall v: nat :: v < c.n && s.workers[v].pc.Passing? && s.workers[v].pc.sleeper == pc.sleeper ==> v == u)
      && (pc.stage == 2 ==>
        s.workers[pc.sleeper].dir == Some(pc.child) && s.workers[pc.sleeper].path == PathOf(c.tree, pc.child))
  {
    ReachableHasInv(c, s);
    PassFacts(s, u);
    assert ReceiverReady(s.workers, s.threadQ, u);
    assert WorkerPaths(c.tree, s.workers[u]);
    SearchingWhileMainWaits(c, s, u);
    forall v: nat | v < c.n && s.workers[v].pc.Passing? && s.workers[v].pc.sleeper == s.workers[u].pc.sleeper
      ensures v == u {
      assert PassesTo(s.workers[v], s.workers[u].pc.sleeper) && PassesTo(s.workers[u], s.workers[u].pc.sleeper);
    }
  }

  /** A worker that wakes before shutdown has a directory, with its own path; one that wakes at shutdown has none. */
  lemma WakesWithADirectoryOrToLeave(c: Config, s: State, w: nat)
    requires Reachable(c, s) && w < c.n && s.workers[w].pc.Woken?
    ensures !s.done ==> s.workers[w].dir.Some? && s.workers[w].path == PathOf(c.tree, s.workers[w].dir.value)
    ensures s.done ==> s.workers[w].dir.None?
  {
    ReachableHasInv(c, s);
    assert WorkerPaths(c.tree, s.workers[w]);
    if s.done {
      NoDirectoryAtShutdown(c, s, w);
    }
  }

  /** Worker w can register, and is the last to do so. */
  predicate RegistersLast(c: Config, s: State, w: nat)
    requires w < |s.workers|
  {
    s.workers[w].pc.Registering? && !HoldsStartMutex(s.main) && s.initialized + 1 + s.failed == c.n
  }

  /** The thread that each signal of the program is meant for is waiting for it. */
  ghost predicate SignalsArrive(c: Config, s: State)
    requires Typed(c, s)
  {
    // all_initialized (142)
    && (forall w: nat :: w < c.n && RegistersLast(c, s, w) ==> s.main.AwaitInit?)
    // start_work (504)
    && (s.main.Broadcasting? ==> forall w :: 0 <= w < c.n ==> s.workers[w].pc.AwaitStart?)
    // all_sleep, when all sleep (174)
    && (forall w :: 0 <= w < c.n && s.workers[w].pc.Retiring? && |s.threadQ| + 1 == s.initialized ==>
      s.main.AwaitSleep?)
    // all_sleep, when all have failed (276): by the first to signal it
    && (forall w :: 0 <= w < c.n && s.workers[w].pc.Dying? && s.failed == c.n ==>
      s.main.AwaitSleep? || s.main.WokenSleep? || s.main.Aborted?)
    // hand-offs (254)
    && (forall w :: 0 <= w < c.n && s.workers[w].pc.Passing? ==> s.workers[s.workers[w].pc.sleeper].pc.Asleep?)
    // shutdown (523)
    && (s.main.Signalling? && s.main.next < |s.threadQ| ==> s.workers[s.threadQ[s.main.next]].pc.Asleep?)
  }

  lemma NoSignalIsLost(c: Config, s: State)
    requires Reachable(c, s)
    ensures Typed(c, s) && SignalsArrive(c, s)
  {
    ReachableHasInv(c, s);
    AllSignalsArrive(c, s);
  }

  lemma AllSignalsArrive(c: Config, s: State)
    requires Typed(c, s) && Counted(s) && Phase(c, s) && SleepersOk(s)
    ensures SignalsArrive(c, s)
  {
    SignalsToMainArrive(c, s);
    SignalsToWorkersArrive(c, s);
  }

  lemma SignalsToMainArrive(c: Config, s: State)
    requires Typed(c, s) && Counted(s) && Phase(c, s)
    ensures forall w: nat :: w < c.n && RegistersLast(c, s, w) ==> s.main.AwaitInit?
    ensures forall w :: 0 <= w < c.n && s.workers[w].pc.Retiring? ==> s.main.AwaitSleep?
  {
    forall w: nat | w < c.n && RegistersLast(c, s, w) ensures s.main.AwaitInit? {
      RegistrarFindsMainWaiting(c, s, w);
    }
    forall w: nat | w < c.n && s.workers[w].pc.Retiring? ensures s.main.AwaitSleep? {
      SearchingWhileMainWaits(c, s, w);
    }
  }

  lemma SignalsToWorkersArrive(c: Config, s: State)
    requires Typed(c, s) && SleepersOk(s)
    ensures forall w :: 0 <= w < c.n && s.workers[w].pc.Passing? ==> s.workers[s.workers[w].pc.sleeper].pc.Asleep?
  {
    forall w: nat | w < c.n && s.workers[w].pc.Passing? ensures s.workers[s.workers[w].pc.sleeper].pc.Asleep? {
      PassFacts(s, w);
    }
  }

  /** While main is still creating workers, one that is not yet created is missing from the count. */
  lemma RegistrarFindsMainWaiting(c: Config, s: State, w: nat)
    requires Counted(s) && Phase(c, s)
    requires w < c.n && s.workers[w].pc.Registering? && !HoldsStartMutex(s.main) && s.initialized + 1 + s.failed == c.n
    ensures s.main.AwaitInit?
  {
    if s.main.Creating? {
      var k := s.workers[w].(pc := AwaitStart);
      CountsUpdate(s.workers, w, k);
      CountsFull(s.workers[w := k]);
    }
  }
}
