/** Every step of every actor keeps the invariant. */
module SearchSteps {
  import opened Options
  import opened Sums
  import opened SearchTree
  import opened SearchProtocol
  import opened SearchLedger
  import opened SearchInvariant

  // ---------------------------------------------------------------- one worker changes

  lemma ViewsUpdate(workers: seq<Worker>, w: nat, k: Worker)
    requires w < |workers|
    ensures ViewsOf(workers[w := k]) == ViewsOf(workers)[w := ViewOf(k)]
  {
  }

  lemma CountsUpdate(workers: seq<Worker>, w: nat, k: Worker)
    requires w < |workers|
    ensures Sum(RegisteredBits(workers[w := k]))
      == Sum(RegisteredBits(workers)) - RegisteredBit(workers[w]) + RegisteredBit(k)
    ensures Sum(FailedBits(workers[w := k])) == Sum(FailedBits(workers)) - FailedBit(workers[w]) + FailedBit(k)
  {
    SumUpdate(RegisteredBits(workers), w, RegisteredBit(k));
    assert RegisteredBits(workers[w := k]) == RegisteredBits(workers)[w := RegisteredBit(k)];
    SumUpdate(FailedBits(workers), w, FailedBit(k));
    assert FailedBits(workers[w := k]) == FailedBits(workers)[w := FailedBit(k)];
  }

  /** All have registered, or all or none have failed, exactly when the count says so. */
  lemma CountsFull(workers: seq<Worker>)
    ensures Sum(RegisteredBits(workers)) <= |workers| && Sum(FailedBits(workers)) <= |workers|
    ensures Sum(RegisteredBits(workers)) == |workers| <==> forall w :: 0 <= w < |workers| ==>
      RegisteredBit(workers[w]) == 1
    ensures Sum(FailedBits(workers)) == |workers| <==> forall w :: 0 <= w < |workers| ==> FailedBit(workers[w]) == 1
    ensures Sum(FailedBits(workers)) == 0 <==> forall w :: 0 <= w < |workers| ==> FailedBit(workers[w]) == 0
  {
    var r, f := RegisteredBits(workers), FailedBits(workers);
    SumOfBits(r);
    SumOfBits(f);
    SumZero(f);
    assert (forall w :: 0 <= w < |r| ==> r[w] == 1) <==> forall w :: 0 <= w < |workers| ==>
      RegisteredBit(workers[w]) == 1;
    assert (forall w :: 0 <= w < |f| ==> f[w] == 1) <==> forall w :: 0 <= w < |workers| ==> FailedBit(workers[w]) == 1;
    assert (forall w :: 0 <= w < |f| ==> f[w] == 0) <==> forall w :: 0 <= w < |workers| ==> FailedBit(workers[w]) == 0;
  }

  function Below(n: nat): (b: set<nat>)
    ensures forall w: nat :: w in b <==> w < n
    ensures |b| == n
  {
    if n == 0 then {} else Below(n - 1) + {n - 1}
  }

  function Elements(q: seq<nat>): (e: set<nat>)
    ensures forall w: nat :: w in e <==> w in q
  {
    if q == [] then {} else
    assert q == q[..|q| - 1] + [q[|q| - 1]];
    Elements(q[..|q| - 1]) + {q[|q| - 1]}
  }

  lemma {:induction false} DistinctCounted(q: seq<nat>)
    requires forall i, j :: 0 <= i < j < |q| ==> q[i] != q[j]
    ensures |Elements(q)| == |q|
  {
    if q != [] {
      DistinctCounted(q[..|q| - 1]);
    }
  }

  /** Distinct numbers below n: at most n of them, and all of them when there are n. */
  lemma Pigeonhole(q: seq<nat>, n: nat)
    requires forall i :: 0 <= i < |q| ==> q[i] < n
    requires forall i, j :: 0 <= i < j < |q| ==> q[i] != q[j]
    ensures |q| <= n
    ensures |q| == n ==> forall w: nat :: w < n ==> w in q
  {
    DistinctCounted(q);
    SubsetCounted(Elements(q), Below(n));
    if |q| == n {
      forall w: nat | w < n ensures w in q {
        assert w in Below(n);
      }
    }
  }

  lemma SubsetCounted(a: set<nat>, b: set<nat>)
    requires a <= b
    ensures |a| <= |b| && (|a| == |b| ==> a == b)
  {
    assert b == a + (b - a);
  }

  // ---------------------------------------------------------------- counts

  lemma CountedAfterSet(s: State, s': State, w: nat, k: Worker)
    requires Counted(s) && w < |s.workers| && s'.workers == s.workers[w := k]
    requires s'.initialized == s.initialized - RegisteredBit(s.workers[w]) + RegisteredBit(k)
    requires s'.failed == s.failed - FailedBit(s.workers[w]) + FailedBit(k)
    ensures Counted(s')
  {
    CountsUpdate(s.workers, w, k);
  }

  lemma CountedAfterSignal(s: State, w: nat)
    requires Counted(s) && w < |s.workers|
    ensures Counted(SignalWorker(s, w))
  {
    if s.workers[w].pc.Asleep? {
      CountedAfterSet(s, SignalWorker(s, w), w, s.workers[w].(pc := Woken));
    }
  }

  lemma CountedAfterPass(s: State, w: nat)
    requires Counted(s) && w < |s.workers| && s.workers[w].pc.Passing? && s.workers[w].pc.sleeper < |s.workers|
    requires s.workers[w].pc.sleeper != w
    ensures Counted(Pass(s, w))
  {
    var k := s.workers[w];
    var t := k.pc.sleeper;
    if k.pc.stage == 0 {
      var s1 := Set(s, t, s.workers[t].(dir := Some(k.pc.child)));
      CountedAfterSet(s, s1, t, s1.workers[t]);
      CountedAfterSet(s1, Pass(s, w), w, k.(pc := k.pc.(stage := 1)));
    } else if k.pc.stage == 1 {
      var s1 := Set(s, t, s.workers[t].(path := k.pc.childPath));
      CountedAfterSet(s, s1, t, s1.workers[t]);
      CountedAfterSet(s1, Pass(s, w), w, k.(pc := k.pc.(stage := 2)));
    } else {
      CountedAfterSignal(s, t);
      CountedAfterSet(SignalWorker(s, t), Pass(s, w), w, k.(pc := Scanning));
    }
  }

  // ---------------------------------------------------------------- sleepers

  /** A worker that neither sleeps nor passes moves on to a place where it does neither. */
  lemma SleepersAfterPlainStep(workers: seq<Worker>, threadQ: seq<nat>, done: bool, w: nat, k: Worker)
    requires Sleepers(workers, threadQ, done) && w < |workers|
    requires !workers[w].pc.Asleep? && !workers[w].pc.Passing?
    requires !k.pc.Asleep? && !k.pc.Passing? && !k.pc.Woken?
    requires w in threadQ ==> done && k.dir == None
    ensures Sleepers(workers[w := k], threadQ, done)
  {
    var workers' := workers[w := k];
    forall u: nat | u < |workers'| ensures ReceiverReady(workers', threadQ, u) {
      assert ReceiverReady(workers, threadQ, u);
    }
    forall v: nat | v < |workers'| && workers'[v].pc.Asleep? ensures Awaited(workers', threadQ, v) {
      AwaitedKept(workers, threadQ, workers', threadQ, v);
    }
  }

  /** Being in the queue, or being passed to, outlives changes elsewhere. */
  lemma AwaitedKept(workers: seq<Worker>, threadQ: seq<nat>, workers': seq<Worker>, threadQ': seq<nat>, v: nat)
    requires |workers'| == |workers| && Awaited(workers, threadQ, v)
    requires v in threadQ ==> v in threadQ'
    requires forall u: nat :: u < |workers| && PassesTo(workers[u], v) ==> PassesTo(workers'[u], v)
    ensures Awaited(workers', threadQ', v)
  {
    if v !in threadQ {
      var u: nat :| u < |workers| && PassesTo(workers[u], v);
      assert PassesTo(workers'[u], v);
    }
  }

  lemma SleepersAfterFallAsleep(workers: seq<Worker>, threadQ: seq<nat>, w: nat)
    requires Sleepers(workers, threadQ, false) && w < |workers| && workers[w].pc.Retiring?
    ensures Sleepers(workers[w := workers[w].(pc := Asleep, dir := None, path := "")], threadQ + [w], false)
  {
    var workers' := workers[w := workers[w].(pc := Asleep, dir := None, path := "")];
    forall u: nat | u < |workers'| ensures ReceiverReady(workers', threadQ + [w], u) {
      assert ReceiverReady(workers, threadQ, u);
    }
    forall v: nat | v < |workers'| && workers'[v].pc.Asleep? ensures Awaited(workers', threadQ + [w], v) {
      if v == w {
        assert (threadQ + [w])[|threadQ|] == w;
      } else {
        AwaitedKept(workers, threadQ, workers', threadQ + [w], v);
      }
    }
  }

  lemma SleepersAfterDeliver(workers: seq<Worker>, threadQ: seq<nat>, w: nat, child: nat, path: string)
    requires Sleepers(workers, threadQ, false) && w < |workers| && workers[w].pc.Holding? && threadQ != []
    ensures Sleepers(workers[w := workers[w].(pc := Passing(child, path, threadQ[0], 0))], threadQ[1..], false)
  {
    var t := threadQ[0];
    var workers' := workers[w := workers[w].(pc := Passing(child, path, t, 0))];
    assert t != w && t !in threadQ[1..];
    forall u: nat | u < |workers| ensures !PassesTo(workers[u], t) {
      assert ReceiverReady(workers, threadQ, u);
    }
    forall u: nat | u < |workers'| ensures ReceiverReady(workers', threadQ[1..], u) {
      assert ReceiverReady(workers, threadQ, u);
    }
    assert PassesTo(workers'[w], t);
    forall v: nat | v < |workers'| && workers'[v].pc.Asleep? ensures Awaited(workers', threadQ[1..], v) {
      if v != t {
        assert v in threadQ ==> v in threadQ[1..];
        AwaitedKept(workers, threadQ, workers', threadQ[1..], v);
      }
    }
  }

  /** The entry of a receiver is filled in by the worker that passes to it, and by nobody else. */
  lemma SleepersAfterFill(workers: seq<Worker>, threadQ: seq<nat>, w: nat, stage: nat, t': Worker)
    requires Sleepers(workers, threadQ, false) && w < |workers| && workers[w].pc.Passing?
    requires workers[w].pc.sleeper < |workers| && workers[w].pc.sleeper != w
    requires var pc, t := workers[w].pc, workers[workers[w].pc.sleeper];
      || (pc.stage == 0 && stage == 1 && t' == t.(dir := Some(pc.child)))
      || (pc.stage == 1 && stage == 2 && t' == t.(path := pc.childPath))
    ensures Sleepers(workers[workers[w].pc.sleeper := t'][w := workers[w].(pc := workers[w].pc.(stage := stage))],
      threadQ, false)
  {
    var t := workers[w].pc.sleeper;
    var workers' := workers[t := t'][w := workers[w].(pc := workers[w].pc.(stage := stage))];
    assert ReceiverReady(workers, threadQ, w);
    assert PassesTo(workers[w], t);
    forall u: nat | u < |workers'| ensures ReceiverReady(workers', threadQ, u) {
      assert ReceiverReady(workers, threadQ, u);
      assert u != w ==> !PassesTo(workers[u], t);
    }
    forall v: nat | v < |workers'| && workers'[v].pc.Asleep? ensures Awaited(workers', threadQ, v) {
      AwaitedKept(workers, threadQ, workers', threadQ, v);
    }
  }

  lemma SleepersAfterHandOff(workers: seq<Worker>, threadQ: seq<nat>, w: nat)
    requires Sleepers(workers, threadQ, false) && w < |workers| && workers[w].pc.Passing? && workers[w].pc.stage == 2
    ensures workers[w].pc.sleeper < |workers| && workers[w].pc.sleeper != w
    ensures var t := workers[w].pc.sleeper;
      Sleepers(workers[t := workers[t].(pc := Woken)][w := workers[w].(pc := Scanning)], threadQ, false)
  {
    assert ReceiverReady(workers, threadQ, w);
    var t := workers[w].pc.sleeper;
    var workers' := workers[t := workers[t].(pc := Woken)][w := workers[w].(pc := Scanning)];
    assert PassesTo(workers[w], t);
    forall u: nat | u < |workers'| ensures ReceiverReady(workers', threadQ, u) {
      assert ReceiverReady(workers, threadQ, u);
      assert u != w ==> !PassesTo(workers[u], t);
    }
    forall v: nat | v < |workers'| && workers'[v].pc.Asleep? ensures Awaited(workers', threadQ, v) {
      AwaitedKept(workers, threadQ, workers', threadQ, v);
    }
  }

  lemma SleepersAfterShutdownSignal(workers: seq<Worker>, threadQ: seq<nat>, w: nat)
    requires Sleepers(workers, threadQ, true) && w < |workers| && w in threadQ && workers[w].pc.Asleep?
    ensures Sleepers(workers[w := workers[w].(pc := Woken)], threadQ, true)
  {
    var workers' := workers[w := workers[w].(pc := Woken)];
    forall u: nat | u < |workers'| ensures ReceiverReady(workers', threadQ, u) {
      assert ReceiverReady(workers, threadQ, u);
    }
    forall v: nat | v < |workers'| && workers'[v].pc.Asleep? ensures Awaited(workers', threadQ, v) {
      AwaitedKept(workers, threadQ, workers', threadQ, v);
    }
  }

  // ---------------------------------------------------------------- phases and the watch

  /** A worker that searches, or is about to, does so while main waits for all to sleep. */
  lemma SearchingWhileMainWaits(c: Config, s: State, w: nat)
    requires Phase(c, s) && w < c.n
    requires var pc := s.workers[w].pc;
      pc.Scanning? || pc.Holding? || pc.Passing? || pc.Retiring? || (pc.FirstCheck? && !HoldsQueueMutex(s.main))
    ensures s.main.AwaitSleep? && !s.done
  {
  }

  lemma PhaseAfterSearchStep(c: Config, s: State, s': State, w: nat, k: Worker)
    requires Phase(c, s) && s.main.AwaitSleep? && w < c.n && s'.workers == s.workers[w := k]
    requires s'.main == s.main && !s'.done && |s'.threadQ| < c.n && s'.failed <= c.n
    requires Started(k.pc) && k.pc != Exited(false)
    requires k.pc.Dying? || (s'.failed == s.failed && !s.workers[w].pc.Dying?)
    ensures Phase(c, s')
  {
    if s'.failed == c.n {
      if k.pc.Dying? {
        assert s'.workers[w].pc.Dying?;
      } else {
        var u :| 0 <= u < c.n && s.workers[u].pc.Dying?;
        assert s'.workers[u].pc.Dying?;
      }
    }
  }

  /** The stepping worker has still to look into the queue. */
  lemma WatchedByStepper(s': State, w: nat)
    requires w < |s'.workers| && Early(s'.workers[w].pc)
    ensures Watched(s')
  {
  }

  /** The stepping worker was not the one that watched the queue, and the queue did not grow. */
  lemma WatchedByOthers(s: State, s': State, w: nat, k: Worker)
    requires Watched(s) && w < |s.workers| && s'.workers == s.workers[w := k] && !Early(s.workers[w].pc)
    requires s'.dirQ == s.dirQ && s'.failed >= s.failed
    ensures Watched(s')
  {
    if s'.dirQ != [] && s'.failed == 0 {
      var u: nat :| u < |s.workers| && Early(s.workers[u].pc);
      assert Early(s'.workers[u].pc);
    }
  }

  // ---------------------------------------------------------------- results and errors

  lemma FoundAfterRead(t: Tree, cursor: seq<nat>, term: string, d: nat)
    requires CursorsTyped(t, cursor) && d < |t.items| && cursor[d] < |t.items[d]|
    ensures CursorsTyped(t, cursor[d := cursor[d] + 1])
    ensures Sum(FoundIn(t, cursor[d := cursor[d] + 1], term)) ==
      Sum(FoundIn(t, cursor, term)) + if IsMatch(t.items[d][cursor[d]], term) then 1 else 0
  {
    var m := MatchesIn(t.items[d], cursor[d] + 1, term);
    SumUpdate(FoundIn(t, cursor, term), d, m);
    assert FoundIn(t, cursor[d := cursor[d] + 1], term) == FoundIn(t, cursor, term)[d := m];
  }

  lemma LockedByReading(items: seq<Item>, k: nat)
    requires k < |items|
    ensures LockedBefore(items, k + 1) <==> LockedBefore(items, k) || IsLocked(items[k])
  {
    if LockedBefore(items, k) {
      var i :| 0 <= i < k && IsLocked(items[i]);
      assert IsLocked(items[i]);
    }
  }

  /**
   The reader of d moves one entry on, and its errno records whether that entry was a directory that does not open.
   */
  lemma ErrorsAfterRead(t: Tree, s: State, s': State, w: nat, d: nat)
    requires CursorsTyped(t, s.cursor) && CursorsTyped(t, s'.cursor) && Errors(t, s)
      && Exclusive(ViewsOf(s.workers), QueuedDirs(s.dirQ))
    requires w < |s.workers| && s.workers[w].pc.Scanning? && s.workers[w].dir == Some(d) && d < |t.items|
      && s.cursor[d] < |t.items[d]|
    requires s'.cursor == s.cursor[d := s.cursor[d] + 1] && s'.failed == s.failed
    requires |s'.workers| == |s.workers| && forall u: nat :: u < |s.workers| && u != w ==> s'.workers[u] == s.workers[u]
    requires ViewOf(s'.workers[w]).scan == Some(d) && s'.workers[w].dir == Some(d)
    requires s'.workers[w].err == (s.workers[w].err || IsLocked(t.items[d][s.cursor[d]]))
    ensures Errors(t, s')
  {
    LockedByReading(t.items[d], s.cursor[d]);
    assert Holds(ViewsOf(s.workers)[w], d);
    forall u: nat | u < |s.workers| && u != w ensures ViewOf(s.workers[u]).scan != Some(d) {
      assert !Holds(ViewsOf(s.workers)[u], d);
    }
    forall e: nat | s.failed == 0 && e < |t.items| && LockedBefore(t.items[e], s'.cursor[e])
      ensures ScannedBy(ViewsOf(s'.workers), e)
    {
      if e == d {
        assert ViewsOf(s'.workers)[w].scan == Some(d);
      } else {
        var u: nat :| u < |s.workers| && ViewsOf(s.workers)[u].scan == Some(e);
        assert ViewsOf(s'.workers)[u].scan == Some(e);
      }
    }
  }

  /** A worker changes what it scans without reading; what it lets go of had no unopenable entry, unless it fails. */
  lemma ErrorsAfterMove(t: Tree, s: State, s': State, w: nat, k: Worker)
    requires CursorsTyped(t, s.cursor) && s'.cursor == s.cursor && Errors(t, s)
    requires w < |s.workers| && s'.workers == s.workers[w := k]
    requires ViewOf(k).scan.Some? ==> k.dir == ViewOf(k).scan
    requires s'.failed == s.failed || (s'.failed > 0 && !AllOpen(t))
    requires ViewOf(k).scan == ViewOf(s.workers[w]).scan ==> k.err == s.workers[w].err
    requires ViewOf(k).scan != ViewOf(s.workers[w]).scan ==>
      && (ViewOf(s.workers[w]).scan.Some? ==>
        s.workers[w].dir.value < |t.items| && (!s.workers[w].err || s'.failed > 0))
      && (ViewOf(k).scan.Some? ==> !k.err && (k.dir.value < |t.items| ==> s.cursor[k.dir.value] == 0))
    requires ViewOf(s.workers[w]).scan.Some? ==> s.workers[w].dir == ViewOf(s.workers[w]).scan
    ensures Errors(t, s')
  {
    ViewsUpdate(s.workers, w, k);
    OthersKeepTheirs(ViewsOf(s.workers), w, ViewOf(k));
  }
}
