/**
 Every step of every actor decreases a measure, so no schedule is infinite; and a state in which nobody can move is
 an end of the program, or the wait that follows when some but not all workers have failed.
 */
module SearchTermination {
  import opened Options
  import opened Sums
  import opened SearchTree
  import opened SearchProtocol
  import opened SearchInvariant
  import opened SearchSteps
  import opened SearchPreservation

  // ---------------------------------------------------------------- the measure

  function Weight(k: Worker): nat {
    match k.pc
    case Uncreated => 8
    case Registering => 7
    case AwaitStart => 6
    case Released => 5
    case FirstCheck => 4
    case Scanning => 4
    case Holding(_, _) => 11
    case Passing(_, _, _, stage) => if stage == 0 then 10 else if stage == 1 then 9 else 8
    case Retiring => 3
    case Asleep => 2
    case Woken => if k.dir.Some? then 5 else 1
    case Dying => 1
    case Exited(_) => 0
  }

  function MainWeight(n: nat, m: MainPc): nat {
    match m
    case Creating(i) => 2 * n + 12 + if i < n then n - i else 0
    case CreatingLast => 2 * n + 11
    case BeforeInitWait => 2 * n + 10
    case AwaitInit => 2 * n + 9
    case WokenInit => 2 * n + 8
    case BeforeQueueLock => 2 * n + 7
    case Broadcasting => 2 * n + 6
    case BeforeSleepWait => 2 * n + 5
    case AwaitSleep => 2 * n + 4
    case WokenSleep => 2 * n + 3
    case Signalling(i) => n + 2 + if i < n then n - i else 0
    case Joining(i) => 1 + if i < n then n - i else 0
    case Finished(_) => 0
    case Aborted => 0
  }

  function Weights(workers: seq<Worker>): (ws: seq<nat>)
    ensures |ws| == |workers| && forall w :: 0 <= w < |ws| ==> ws[w] == Weight(workers[w])
  {
    seq(|workers|, w requires 0 <= w < |workers| => Weight(workers[w]))
  }

  /** How many entries of each directory are still to be read. */
  function UnreadEntries(t: Tree, cursor: seq<nat>): seq<nat>
    requires CursorsTyped(t, cursor)
  {
    seq(|t.items|, d requires 0 <= d < |t.items| => |t.items[d]| - cursor[d])
  }

  function Measure(c: Config, s: State): nat
    requires Typed(c, s)
  {
    8 * Sum(UnreadEntries(c.tree, s.cursor)) + |s.dirQ| + Sum(Weights(s.workers)) + MainWeight(c.n, s.main)
  }

  lemma WeightsUpdate(workers: seq<Worker>, w: nat, k: Worker)
    requires w < |workers|
    ensures Sum(Weights(workers[w := k])) == Sum(Weights(workers)) - Weight(workers[w]) + Weight(k)
  {
    SumUpdate(Weights(workers), w, Weight(k));
    assert Weights(workers[w := k]) == Weights(workers)[w := Weight(k)];
  }

  lemma UnreadAfterRead(t: Tree, cursor: seq<nat>, d: nat)
    requires CursorsTyped(t, cursor) && d < |t.items| && cursor[d] < |t.items[d]|
    ensures CursorsTyped(t, cursor[d := cursor[d] + 1])
    ensures Sum(UnreadEntries(t, cursor[d := cursor[d] + 1])) == Sum(UnreadEntries(t, cursor)) - 1
  {
    var m := |t.items[d]| - cursor[d] - 1;
    SumUpdate(UnreadEntries(t, cursor), d, m);
    assert UnreadEntries(t, cursor[d := cursor[d] + 1]) == UnreadEntries(t, cursor)[d := m];
  }

  /** One worker moved, the cursors did not. */
  lemma MeasureAfterSet(c: Config, s: State, s': State, w: nat, k: Worker)
    requires Typed(c, s) && Typed(c, s') && w < c.n && s'.workers == s.workers[w := k] && s'.cursor == s.cursor
    requires MainWeight(c.n, s'.main) <= MainWeight(c.n, s.main)
    requires |s'.dirQ| + Weight(k) < |s.dirQ| + Weight(s.workers[w])
    ensures Measure(c, s') < Measure(c, s)
  {
    WeightsUpdate(s.workers, w, k);
  }

  lemma ReadDecreases(c: Config, s: State, w: nat, d: nat)
    requires IsConfig(c) && Typed(c, s) && w < c.n && s.workers[w].pc.Scanning?
    requires s.workers[w].dir == Some(d) && s.cursor[d] < |c.tree.items[d]|
    ensures Typed(c, ReadEntry(c, s, w, d)) && Measure(c, ReadEntry(c, s, w, d)) < Measure(c, s)
  {
    ReadKeepsTyped(c, s, w, d);
    UnreadAfterRead(c.tree, s.cursor, d);
    WeightsUpdate(s.workers, w, ReaderAfter(s.workers[w], c.tree.items[d][s.cursor[d]]));
  }

  lemma ScanDecreases(c: Config, s: State, w: nat)
    requires IsConfig(c) && Typed(c, s) && w < c.n && s.workers[w].pc.Scanning?
    ensures Typed(c, Scan(c, s, w)) && Measure(c, Scan(c, s, w)) < Measure(c, s)
  {
    ScanKeepsTyped(c, s, w);
    var d := s.workers[w].dir.value;
    if s.cursor[d] < |c.tree.items[d]| {
      ReadDecreases(c, s, w, d);
    } else {
      MeasureAfterSet(c, s, Scan(c, s, w), w, Scan(c, s, w).workers[w]);
    }
  }

  /** Two workers changed, and nothing else that counts. */
  lemma MeasureAfterTwo(c: Config, s: State, s': State, t: nat, kt: Worker, w: nat, kw: Worker)
    requires Typed(c, s) && Typed(c, s') && t < c.n && w < c.n && t != w && s'.workers == s.workers[t := kt][w := kw]
    requires s'.cursor == s.cursor && s'.dirQ == s.dirQ && s'.main == s.main
    requires Weight(kt) + Weight(kw) < Weight(s.workers[t]) + Weight(s.workers[w])
    ensures Measure(c, s') < Measure(c, s)
  {
    WeightsUpdate(s.workers, t, kt);
    WeightsUpdate(s.workers[t := kt], w, kw);
  }

  lemma PassDecreases(c: Config, s: State, w: nat)
    requires Typed(c, s) && SleepersOk(s) && w < c.n && s.workers[w].pc.Passing?
    ensures Typed(c, Pass(s, w)) && Measure(c, Pass(s, w)) < Measure(c, s)
  {
    PassFacts(s, w);
    PassAsTwoUpdates(c, s, w);
    PassKeepsTyped(c, s, w);
    var k := s.workers[w];
    var t := k.pc.sleeper;
    MeasureAfterTwo(c, s, Pass(s, w), t, ReceiverAfter(k, s.workers[t]), w, GiverAfter(k));
  }

  lemma QueueStepDecreases(c: Config, s: State, w: nat)
    requires Typed(c, s) && w < c.n && (s.workers[w].pc.FirstCheck? || s.workers[w].pc.Holding?)
    ensures var s' := NextWorker(c, s, w); Typed(c, s') && Measure(c, s') < Measure(c, s)
  {
    var s' := NextWorker(c, s, w);
    QueueStepsKeepTyped(c, s, w);
    MeasureAfterSet(c, s, s', w, s'.workers[w]);
  }

  lemma StartStepDecreases(c: Config, s: State, w: nat)
    requires Typed(c, s) && w < c.n && WorkerEnabled(c, s, w)
      && (s.workers[w].pc.Registering? || s.workers[w].pc.Released?)
    ensures var s' := NextWorker(c, s, w); Typed(c, s') && Measure(c, s') < Measure(c, s)
  {
    var s' := NextWorker(c, s, w);
    StartStepsKeepTyped(c, s, w);
    MeasureAfterSet(c, s, s', w, s'.workers[w]);
  }

  lemma EndStepDecreases(c: Config, s: State, w: nat)
    requires Typed(c, s) && w < c.n && (s.workers[w].pc.Retiring? || s.workers[w].pc.Dying?)
    ensures var s' := NextWorker(c, s, w); Typed(c, s') && Measure(c, s') < Measure(c, s)
  {
    var s' := NextWorker(c, s, w);
    EndStepsKeepTyped(c, s, w);
    MeasureAfterSet(c, s, s', w, s'.workers[w]);
  }

  lemma ResumeDecreases(c: Config, s: State, w: nat)
    requires Typed(c, s) && w < c.n && WorkerEnabled(c, s, w) && s.workers[w].pc.Woken?
    ensures var s' := NextWorker(c, s, w); Typed(c, s') && Measure(c, s') < Measure(c, s)
  {
    var s' := NextWorker(c, s, w);
    QueueStepsKeepTyped(c, s, w);
    MeasureAfterSet(c, s, s', w, s'.workers[w]);
  }

  lemma WorkerDecreases(c: Config, s: State, w: nat)
    requires IsConfig(c) && Typed(c, s) && SleepersOk(s) && w < c.n && WorkerEnabled(c, s, w)
    ensures var s' := NextWorker(c, s, w); Typed(c, s') && Measure(c, s') < Measure(c, s)
  {
    var pc := s.workers[w].pc;
    if pc.Scanning? {
      ScanDecreases(c, s, w);
    } else if pc.Passing? {
      PassDecreases(c, s, w);
    } else if pc.FirstCheck? || pc.Holding? {
      QueueStepDecreases(c, s, w);
    } else if pc.Retiring? || pc.Dying? {
      EndStepDecreases(c, s, w);
    } else if pc.Woken? {
      ResumeDecreases(c, s, w);
    } else {
      StartStepDecreases(c, s, w);
    }
  }

  lemma {:induction false} SumMonotone(a: seq<nat>, b: seq<nat>)
    requires |a| == |b| && forall i :: 0 <= i < |a| ==> a[i] <= b[i]
    ensures Sum(a) <= Sum(b)
  {
    if a != [] {
      SumMonotone(a[..|a| - 1], b[..|b| - 1]);
    }
  }

  lemma ShutdownSignalDecreases(c: Config, s: State, s': State)
    requires Typed(c, s) && Typed(c, s') && Phase(c, s) && SleepersOk(s) && s.main.Signalling?
      && s.main.next < |s.threadQ|
    requires s' == SignalWorker(s, s.threadQ[s.main.next]).(main := Signalling(s.main.next + 1))
    ensures Measure(c, s') < Measure(c, s)
  {
    var w := s.threadQ[s.main.next];
    assert s.workers[w].pc.Asleep? && s.workers[w].dir == None;
    MeasureAfterSet(c, s, s', w, s.workers[w].(pc := Woken));
  }

  lemma CreateDecreases(c: Config, s: State, s': State, w: nat)
    requires Typed(c, s) && Typed(c, s') && w < c.n && s.workers[w].pc.Uncreated?
    requires s' == Create(s, w).(main := s'.main) && MainWeight(c.n, s'.main) <= MainWeight(c.n, s.main)
    ensures Measure(c, s') < Measure(c, s)
  {
    MeasureAfterSet(c, s, s', w, s.workers[w].(pc := Registering));
  }

  lemma LoneMoveDecreases(c: Config, s: State)
    requires IsConfig(c) && Typed(c, s) && MainEnabled(c, s) && MovesAlone(c, s)
    ensures var s' := NextMain(c, s); Typed(c, s') && Measure(c, s') < Measure(c, s)
  {
    MainKeepsTyped(c, s);
    MainMovesAlone(c, s);
    assert MainWeight(c.n, NextMain(c, s).main) < MainWeight(c.n, s.main);
  }

  lemma BroadcastDecreases(c: Config, s: State)
    requires Typed(c, s) && Typed(c, Broadcasted(s)) && s.main.Broadcasting?
    ensures Measure(c, Broadcasted(s)) < Measure(c, s)
  {
    SumMonotone(Weights(Broadcasted(s).workers), Weights(s.workers));
  }

  lemma MainDecreases(c: Config, s: State)
    requires IsConfig(c) && Typed(c, s) && Phase(c, s) && SleepersOk(s) && MainEnabled(c, s)
    ensures var s' := NextMain(c, s); Typed(c, s') && Measure(c, s') < Measure(c, s)
  {
    MainKeepsTyped(c, s);
    var s' := NextMain(c, s);
    if MovesAlone(c, s) {
      LoneMoveDecreases(c, s);
    } else if s.main.Signalling? {
      ShutdownStep(c, s);
      ShutdownSignalDecreases(c, s, s');
    } else if s.main.Broadcasting? {
      OtherMovesOfMain(c, s);
      BroadcastDecreases(c, s);
    } else {
      OtherMovesOfMain(c, s);
      MainChanges(c, s);
      if s.main.Creating? || s.main.CreatingLast? {
        CreateDecreases(c, s, s', if s.main.Creating? then s.main.next else c.n - 1);
      }
    }
  }

  /** No schedule is longer than the measure of the initial state: every run ends. */
  lemma {:induction false} EveryRunEnds(c: Config, schedule: seq<Actor>)
    requires IsConfig(c) && Execute(c, schedule).Some?
    ensures Typed(c, Init(c))
    ensures |schedule| + Measure(c, Execute(c, schedule).value) <= Measure(c, Init(c))
  {
    assert Execute(c, []) == Some(Init(c));
    if schedule != [] {
      var init, a := schedule[..|schedule| - 1], schedule[|schedule| - 1];
      EveryRunEnds(c, init);
      ReachableInv(c, init);
      var s := Execute(c, init).value;
      match a
      case Main => MainDecreases(c, s);
      case Thread(w) => WorkerDecreases(c, s, w);
    }
  }

  /** How many entries each directory has. */
  function EntryCounts(t: Tree): seq<nat> {
    seq(|t.items|, d requires 0 <= d < |t.items| => |t.items[d]|)
  }

  lemma UnreadAtFirst(t: Tree)
    ensures CursorsTyped(t, seq(|t.items|, _ => 0)) && UnreadEntries(t, seq(|t.items|, _ => 0)) == EntryCounts(t)
  {
  }

  lemma MeasureAtFirst(c: Config)
    requires IsConfig(c)
    ensures Typed(c, Init(c)) && Measure(c, Init(c)) == 8 * Sum(EntryCounts(c.tree)) + 11 * c.n + 13
  {
    UnreadAtFirst(c.tree);
    SumOfEqual(Weights(Init(c).workers), 8);
  }

  /** The length of a run is at most linear in the number of entries of the tree and the number of threads. */
  lemma StepBound(c: Config, schedule: seq<Actor>)
    requires IsConfig(c) && Execute(c, schedule).Some?
    ensures |schedule| <= 8 * Sum(EntryCounts(c.tree)) + 11 * c.n + 13
  {
    EveryRunEnds(c, schedule);
    MeasureAtFirst(c);
  }

  lemma {:induction false} SumOfEqual(xs: seq<nat>, x: nat)
    requires forall i :: 0 <= i < |xs| ==> xs[i] == x
    ensures Sum(xs) == x * |xs|
  {
    if xs != [] {
      SumOfEqual(xs[..|xs| - 1], x);
    }
  }

  // ---------------------------------------------------------------- where a run can stop

  /** If all sleep and nothing is being handed over, all are in the queue of sleepers. */
  lemma AllAsleepMeansFullQueue(c: Config, s: State)
    requires Typed(c, s) && SleepersOk(s) && forall w: nat :: w < c.n ==> s.workers[w].pc.Asleep?
    ensures |s.threadQ| >= c.n
  {
    forall w: nat | w < c.n ensures w in Elements(s.threadQ) {
      assert Awaited(s.workers, s.threadQ, w);
    }
    SubsetCounted(Below(c.n), Elements(s.threadQ));
    DistinctCounted(s.threadQ);
  }

  /** While main waits for all to sleep, a state is stuck only if some workers, but not all, have failed. */
  lemma StuckWhileMainWaits(c: Config, s: State)
    requires IsConfig(c) && Typed(c, s) && Counted(s) && Phase(c, s) && SleepersOk(s) && s.main.AwaitSleep?
      && Stuck(c, s)
    ensures 0 < s.failed < c.n
    ensures forall w :: 0 <= w < c.n ==> s.workers[w].pc.Asleep? || s.workers[w].pc == Exited(true)
  {
    forall w: nat | w < c.n ensures s.workers[w].pc.Asleep? || s.workers[w].pc == Exited(true) {
      assert !WorkerEnabled(c, s, w);
    }
    CountsFull(s.workers);
    if s.failed == 0 {
      forall w: nat | w < c.n ensures s.workers[w].pc.Asleep? {
        assert FailedBit(s.workers[w]) == 0;
      }
      AllAsleepMeansFullQueue(c, s);
    }
  }

  lemma NotStuckDuringStartup(c: Config, s: State)
    requires IsConfig(c) && Typed(c, s) && Counted(s) && Phase(c, s) && s.main.AwaitInit?
    ensures !Stuck(c, s)
  {
    CountsFull(s.workers);
    var w :| 0 <= w < c.n && RegisteredBit(s.workers[w]) != 1;
    assert WorkerEnabled(c, s, w);
  }

  /**
   A run that cannot go on has printed the count, or returned because all workers failed, or hangs after some failed.
   */
  lemma StuckOutcomes(c: Config, s: State)
    requires IsConfig(c) && Typed(c, s) && Counted(s) && Phase(c, s) && SleepersOk(s) && Stuck(c, s)
    ensures s.main.Finished? ==> s.failed == 0
    ensures s.main.Aborted? ==> s.failed == c.n
    ensures !s.main.Finished? && !s.main.Aborted? ==> s.main.AwaitSleep? && 0 < s.failed < c.n
  {
    if s.main.AwaitInit? {
      NotStuckDuringStartup(c, s);
    } else if s.main.AwaitSleep? {
      StuckWhileMainWaits(c, s);
    } else if s.main.Joining? {
      assert !WorkerEnabled(c, s, s.main.next);
    }
  }

  // ---------------------------------------------------------------- every run gets there

  lemma StepDecreases(c: Config, s: State, a: Actor)
    requires IsConfig(c) && Typed(c, s) && Phase(c, s) && SleepersOk(s) && Enabled(c, s, a)
    ensures Typed(c, Next(c, s, a)) && Measure(c, Next(c, s, a)) < Measure(c, s)
  {
    match a
    case Main => MainDecreases(c, s);
    case Thread(w) => WorkerDecreases(c, s, w);
  }

  lemma ExecuteOneMore(c: Config, schedule: seq<Actor>, a: Actor)
    requires IsConfig(c) && Execute(c, schedule).Some? && Enabled(c, Execute(c, schedule).value, a)
    ensures Execute(c, schedule + [a]) == Some(Next(c, Execute(c, schedule).value, a))
  {
    assert (schedule + [a])[..|schedule|] == schedule;
  }

  lemma SomebodyMoves(c: Config, s: State) returns (a: Actor)
    requires Typed(c, s) && !Stuck(c, s)
    ensures Enabled(c, s, a)
  {
    if MainEnabled(c, s) {
      a := Main;
    } else {
      var w: nat :| w < c.n && WorkerEnabled(c, s, w);
      a := Thread(w);
    }
  }

  /** A run that is not at an end goes on, with a smaller measure. */
  lemma GoesOn(c: Config, schedule: seq<Actor>) returns (a: Actor)
    requires IsConfig(c) && Execute(c, schedule).Some? && !Stuck(c, Execute(c, schedule).value)
    ensures Execute(c, schedule + [a]).Some?
    ensures Measure(c, Execute(c, schedule + [a]).value) < Measure(c, Execute(c, schedule).value)
  {
    var s := Execute(c, schedule).value;
    a := SomebodyMoves(c, s);
    ReachableInv(c, schedule);
    StepDecreases(c, s, a);
    ExecuteOneMore(c, schedule, a);
  }

  /** The schedule leads to a state in which nobody can move. */
  ghost predicate Ends(c: Config, schedule: seq<Actor>)
    requires IsConfig(c)
  {
    Execute(c, schedule).Some? && Stuck(c, Execute(c, schedule).value)
  }

  /** Every run, however it has been scheduled so far, goes on to a state in which nobody can move. */
  lemma {:induction false} RunsToAnEnd(c: Config, schedule: seq<Actor>)
    requires IsConfig(c) && Execute(c, schedule).Some?
    ensures exists longer :: schedule <= longer && Ends(c, longer)
    decreases Measure(c, Execute(c, schedule).value)
  {
    if Stuck(c, Execute(c, schedule).value) {
      assert Ends(c, schedule);
    } else {
      var a := GoesOn(c, schedule);
      RunsToAnEnd(c, schedule + [a]);
      var longer :| schedule + [a] <= longer && Ends(c, longer);
      assert schedule <= longer;
    }
  }
}
