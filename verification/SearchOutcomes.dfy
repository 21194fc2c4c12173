/** How the runs of pfind end: all of them, and concrete ones that fail because of a directory that does not open. */
module SearchOutcomes {
  import opened Options
  import opened SearchTree
  import opened SearchTotal
  import opened SearchProtocol
  import opened SearchTermination
  import opened SearchTheorems

  lemma EndIsReachable(c: Config, run: seq<Actor>)
    requires IsConfig(c) && Ends(c, run)
    ensures var s := Execute(c, run).value; Reachable(c, s) && Stuck(c, s)
  {
  }

  /**
   Every run comes to an end. If every directory opens, each end has printed the number of files in the whole tree
   whose name contains the term; if one does not, no end has printed anything.
   */
  lemma AllRunsReportOrNone(c: Config)
    requires IsConfig(c)
    ensures forall run :: Execute(c, run).Some? ==> exists longer :: run <= longer && Ends(c, longer)
    ensures exists run :: Ends(c, run)
    ensures (forall d: nat, i: nat :: d < |c.tree.items| && i < |c.tree.items[d]| ==>
      c.tree.items[d][i].kind == Unopenable ==> c.tree.items[d][i].name == "." || c.tree.items[d][i].name == "..") ==>
      forall run :: Ends(c, run) ==> Execute(c, run).value.main == Finished(|set d: nat, i: nat |
        && d < |c.tree.items| && i < |c.tree.items[d]|
        && c.tree.items[d][i].kind == Regular && c.tree.items[d][i].name != "." && c.tree.items[d][i].name != ".."
        && (exists before: string, after: string :: c.tree.items[d][i].name == before + c.term + after) :: (d, i)|)
    ensures (exists d: nat, i: nat ::
      && d < |c.tree.items| && i < |c.tree.items[d]|
      && c.tree.items[d][i].kind == Unopenable && c.tree.items[d][i].name != "." && c.tree.items[d][i].name != "..") ==>
      forall run :: Ends(c, run) ==> !Execute(c, run).value.main.Finished?
  {
    forall run | Execute(c, run).Some? ensures exists longer :: run <= longer && Ends(c, longer) {
      RunsToAnEnd(c, run);
    }
    assert Execute(c, []).Some?;
    forall run | Ends(c, run) ensures EndsRight(c, run) {
      EndOfRun(c, run);
    }
    OpensByName(c.tree);
    TotalIsTheNumberOfFiles(c.tree, c.term);
  }

  /** No entry but `.` and `..` is a directory that does not open. */
  lemma OpensByName(t: Tree)
    ensures AllOpen(t) <==> forall d: nat, i: nat :: d < |t.items| && i < |t.items[d]| ==>
      t.items[d][i].kind == Unopenable ==> t.items[d][i].name == "." || t.items[d][i].name == ".."
  {
    forall item: Item ensures IsLocked(item) <==> item.kind == Unopenable && item.name != "." && item.name != ".." {
    }
  }

  ghost predicate EndsRight(c: Config, run: seq<Actor>)
    requires IsConfig(c) && Ends(c, run)
  {
    var m := Execute(c, run).value.main;
    if AllOpen(c.tree) then m == Finished(TotalMatches(c.tree, c.term)) else !m.Finished?
  }

  lemma EndOfRun(c: Config, run: seq<Actor>)
    requires IsConfig(c) && Ends(c, run)
    ensures EndsRight(c, run)
  {
    var s := Execute(c, run).value;
    EndIsReachable(c, run);
    CompletesIffAllOpen(c, s);
    if s.main.Finished? {
      ReportsTheTotal(c, s);
    }
  }

  // ---------------------------------------------------------------- a root that holds a directory that does not open

  function LockedTree(): Tree {
    Tree("/", [[Item("private", Unopenable)]], [Link(0, 0)])
  }

  function LockedSearch(n: nat): Config {
    Config(n, LockedTree(), "a")
  }

  lemma LockedSearchIsConfig(n: nat)
    requires n >= 1
    ensures IsConfig(LockedSearch(n)) && !AllOpen(LockedTree())
  {
    assert IsLocked(LockedTree().items[0][0]);
  }

  /** With one thread every run ends with main returning early. */
  lemma OneThreadAborts()
    ensures IsConfig(LockedSearch(1)) && exists run :: Ends(LockedSearch(1), run)
    ensures forall run :: Ends(LockedSearch(1), run) ==> Execute(LockedSearch(1), run).value.main.Aborted?
  {
    var c := LockedSearch(1);
    LockedSearchIsConfig(1);
    AllRunsReportOrNone(c);
    forall run | Ends(c, run) ensures Execute(c, run).value.main.Aborted? {
      EndIsReachable(c, run);
      CompletesIffAllOpen(c, Execute(c, run).value);
    }
  }

  // ---------------------------------------------------------------- with two threads main may wait for ever

  /** A worker of the search, with or without the root. */
  function At(pc: Pc): Worker {
    Worker(pc, None, "", false)
  }

  function WithRoot(pc: Pc, err: bool): Worker {
    Worker(pc, Some(0), "/", err)
  }

  /** A state before the root has been taken up. */
  function Before(m: MainPc, a: Pc, b: Pc, initialized: nat): State {
    State(m, [At(a), At(b)], [Opened(0, "/")], [], [0], initialized, 0, false, 0, [])
  }

  /** A state after the first worker has taken up the root. */
  function After(a: Worker, b: Pc, sleepers: seq<nat>, cursor: nat, failed: nat): State {
    State(AwaitSleep, [a, At(b)], [], sleepers, [cursor], 2, failed, false, 0, [0])
  }

  lemma OneStep(c: Config, run: seq<Actor>, s: State, a: Actor, s': State)
    requires IsConfig(c) && Execute(c, run) == Some(s) && Enabled(c, s, a) && Next(c, s, a) == s'
    ensures Execute(c, run + [a]) == Some(s')
  {
    ExecuteOneMore(c, run, a);
  }

  lemma CreatesBoth() returns (run: seq<Actor>)
    ensures IsConfig(LockedSearch(2))
      && Execute(LockedSearch(2), run) == Some(Before(AwaitInit, Registering, Registering, 0))
  {
    var c := LockedSearch(2);
    LockedSearchIsConfig(2);
    run := [];
    assert Init(c).workers == [At(Uncreated), At(Uncreated)] && Init(c).cursor == [0];
    assert Execute(c, run) == Some(Before(Creating(0), Uncreated, Uncreated, 0));
    OneStep(c, run, Before(Creating(0), Uncreated, Uncreated, 0), Main, Before(Creating(1), Registering, Uncreated, 0));
    run := run + [Main];
    OneStep(c, run, Before(Creating(1), Registering, Uncreated, 0), Main,
      Before(CreatingLast, Registering, Uncreated, 0));
    run := run + [Main];
    OneStep(c, run, Before(CreatingLast, Registering, Uncreated, 0), Main,
      Before(BeforeInitWait, Registering, Registering, 0));
    run := run + [Main];
    OneStep(c, run, Before(BeforeInitWait, Registering, Registering, 0), Main,
      Before(AwaitInit, Registering, Registering, 0));
    run := run + [Main];
  }

  lemma StartsBoth() returns (run: seq<Actor>)
    ensures IsConfig(LockedSearch(2))
      && Execute(LockedSearch(2), run) == Some(Before(Broadcasting, AwaitStart, AwaitStart, 2))
  {
    var c := LockedSearch(2);
    run := CreatesBoth();
    OneStep(c, run, Before(AwaitInit, Registering, Registering, 0), Thread(0),
      Before(AwaitInit, AwaitStart, Registering, 1));
    run := run + [Thread(0)];
    OneStep(c, run, Before(AwaitInit, AwaitStart, Registering, 1), Thread(1),
      Before(WokenInit, AwaitStart, AwaitStart, 2));
    run := run + [Thread(1)];
    OneStep(c, run, Before(WokenInit, AwaitStart, AwaitStart, 2), Main,
      Before(BeforeQueueLock, AwaitStart, AwaitStart, 2));
    run := run + [Main];
    OneStep(c, run, Before(BeforeQueueLock, AwaitStart, AwaitStart, 2), Main,
      Before(Broadcasting, AwaitStart, AwaitStart, 2));
    run := run + [Main];
  }

  lemma LooksForWork() returns (run: seq<Actor>)
    ensures IsConfig(LockedSearch(2))
      && Execute(LockedSearch(2), run) == Some(Before(AwaitSleep, FirstCheck, FirstCheck, 2))
  {
    var c := LockedSearch(2);
    run := StartsBoth();
    assert Broadcast([At(AwaitStart), At(AwaitStart)]) == [At(Released), At(Released)];
    OneStep(c, run, Before(Broadcasting, AwaitStart, AwaitStart, 2), Main,
      Before(BeforeSleepWait, Released, Released, 2));
    run := run + [Main];
    OneStep(c, run, Before(BeforeSleepWait, Released, Released, 2), Main, Before(AwaitSleep, Released, Released, 2));
    run := run + [Main];
    OneStep(c, run, Before(AwaitSleep, Released, Released, 2), Thread(0), Before(AwaitSleep, FirstCheck, Released, 2));
    run := run + [Thread(0)];
    OneStep(c, run, Before(AwaitSleep, FirstCheck, Released, 2), Thread(1),
      Before(AwaitSleep, FirstCheck, FirstCheck, 2));
    run := run + [Thread(1)];
  }

  /** One step between two given states of the search with two threads. */
  ghost predicate Moves(s: State, a: Actor, s': State) {
    && IsConfig(LockedSearch(2)) && Typed(LockedSearch(2), s)
    && Enabled(LockedSearch(2), s, a) && Next(LockedSearch(2), s, a) == s'
  }

  lemma TakesTheRoot()
    ensures Moves(Before(AwaitSleep, FirstCheck, FirstCheck, 2), Thread(0),
      After(WithRoot(Scanning, false), FirstCheck, [], 0, 0))
  {
    LockedSearchIsConfig(2);
  }

  lemma FailsToOpen()
    ensures Moves(After(WithRoot(Scanning, false), FirstCheck, [], 0, 0), Thread(0),
      After(WithRoot(Scanning, true), FirstCheck, [], 1, 0))
  {
    LockedSearchIsConfig(2);
  }

  lemma FindsErrno()
    ensures Moves(After(WithRoot(Scanning, true), FirstCheck, [], 1, 0), Thread(0),
      After(WithRoot(Dying, true), FirstCheck, [], 1, 1))
  {
    LockedSearchIsConfig(2);
  }

  lemma Dies()
    ensures Moves(After(WithRoot(Dying, true), FirstCheck, [], 1, 1), Thread(0),
      After(WithRoot(Exited(true), true), FirstCheck, [], 1, 1))
  {
    LockedSearchIsConfig(2);
  }

  lemma FindsNothing()
    ensures Moves(After(WithRoot(Exited(true), true), FirstCheck, [], 1, 1), Thread(1),
                  After(WithRoot(Exited(true), true), Retiring, [], 1, 1))
  {
    LockedSearchIsConfig(2);
  }

  lemma FallsAsleep()
    ensures Moves(After(WithRoot(Exited(true), true), Retiring, [], 1, 1), Thread(1),
                  After(WithRoot(Exited(true), true), Asleep, [1], 1, 1))
  {
    LockedSearchIsConfig(2);
  }

  lemma Moved(run: seq<Actor>, s: State, a: Actor, s': State)
    requires Moves(s, a, s') && Execute(LockedSearch(2), run) == Some(s)
    ensures Execute(LockedSearch(2), run + [a]) == Some(s')
  {
    OneStep(LockedSearch(2), run, s, a, s');
  }

  lemma OneDies() returns (run: seq<Actor>)
    ensures IsConfig(LockedSearch(2))
    ensures Execute(LockedSearch(2), run) == Some(After(WithRoot(Exited(true), true), FirstCheck, [], 1, 1))
  {
    run := LooksForWork();
    var s1, s2 := After(WithRoot(Scanning, false), FirstCheck, [], 0, 0),
      After(WithRoot(Scanning, true), FirstCheck, [], 1, 0);
    var s3, s4 := After(WithRoot(Dying, true), FirstCheck, [], 1, 1),
      After(WithRoot(Exited(true), true), FirstCheck, [], 1, 1);
    TakesTheRoot();
    Moved(run, Before(AwaitSleep, FirstCheck, FirstCheck, 2), Thread(0), s1);
    FailsToOpen();
    Moved(run + [Thread(0)], s1, Thread(0), s2);
    FindsErrno();
    Moved(run + [Thread(0)] + [Thread(0)], s2, Thread(0), s3);
    Dies();
    Moved(run + [Thread(0)] + [Thread(0)] + [Thread(0)], s3, Thread(0), s4);
    run := run + [Thread(0)] + [Thread(0)] + [Thread(0)] + [Thread(0)];
  }

  lemma NobodyIsLeft()
    ensures var s := After(WithRoot(Exited(true), true), Asleep, [1], 1, 1);
      Typed(LockedSearch(2), s) && Stuck(LockedSearch(2), s)
  {
    LockedSearchIsConfig(2);
  }

  /** With two threads there is a run after which main waits for a signal that nobody is left to send. */
  lemma TwoThreadsMayHang()
    ensures IsConfig(LockedSearch(2))
    ensures exists run :: Ends(LockedSearch(2), run) && Execute(LockedSearch(2), run).value.main.AwaitSleep?
  {
    var run := OneDies();
    var s4, s5 := After(WithRoot(Exited(true), true), FirstCheck, [], 1, 1),
      After(WithRoot(Exited(true), true), Retiring, [], 1, 1);
    FindsNothing();
    Moved(run, s4, Thread(1), s5);
    FallsAsleep();
    Moved(run + [Thread(1)], s5, Thread(1), After(WithRoot(Exited(true), true), Asleep, [1], 1, 1));
    NobodyIsLeft();
    assert Ends(LockedSearch(2), run + [Thread(1)] + [Thread(1)]);
  }
}
