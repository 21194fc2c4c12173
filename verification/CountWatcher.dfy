/** Threads that count together, and one that waits on a condition variable for the count to reach a limit. */
module CountWatcher {
  import opened Sums

  /** n threads count `times` each; the watcher waits for `limit`. */
  datatype Config = Config(n: nat, times: nat, limit: int)

  /**
   Where the watcher is: before its lock, blocked on the condition variable, woken but not yet holding the mutex, gone.
   */
  datatype Watcher = Starting | Blocked | Woken | Gone

  /** `turns[w]` is how often thread w has counted; `signals` is how often the condition variable was signalled. */
  datatype State = State(count: int, turns: seq<nat>, watcher: Watcher, signals: nat)

  /** A wakeup without a signal, which a condition variable may give, is a step of its own. */
  datatype Actor = Counter(w: nat) | Watching | Spurious

  function Init(c: Config): State {
    State(0, seq(c.n, _ => 0), Starting, 0)
  }

  predicate Enabled(c: Config, s: State, a: Actor) {
    match a
    case Counter(w) => w < |s.turns| && s.turns[w] < c.times
    case Watching => s.watcher.Starting? || s.watcher.Woken?
    case Spurious => s.watcher.Blocked?
  }

  /** One region of the mutex. A signal reaches the watcher only if it is blocked. */
  function Next(c: Config, s: State, a: Actor): State
    requires Enabled(c, s, a)
  {
    match a
    case Counter(w) =>
      var s1 := s.(count := s.count + 1, turns := s.turns[w := s.turns[w] + 1]);
      if s1.count == c.limit then
        s1.(signals := s1.signals + 1, watcher := if s1.watcher.Blocked? then Woken else s1.watcher)
      else s1
    case Watching => if s.count < c.limit then s.(watcher := Blocked) else s.(count := s.count + 125, watcher := Gone)
    case Spurious => s.(watcher := Woken)
  }

  /** The state after a schedule, if each of its steps can be taken. */
  ghost predicate Leads(c: Config, schedule: seq<Actor>, s: State)
    decreases schedule, 0
  {
    if schedule == [] then s == Init(c) else
    LeadsBy(c, schedule[..|schedule| - 1], schedule[|schedule| - 1], s)
  }

  ghost predicate LeadsBy(c: Config, init: seq<Actor>, a: Actor, s: State)
    decreases init, 1
  {
    exists r :: Leads(c, init, r) && Follows(c, r, a, s)
  }

  ghost predicate Follows(c: Config, r: State, a: Actor, s: State) {
    Enabled(c, r, a) && s == Next(c, r, a)
  }

  /** No thread can move; a wakeup that nobody asked for is not counted on. */
  ghost predicate AtRest(c: Config, s: State) {
    (forall w: nat :: !Enabled(c, s, Counter(w))) && !Enabled(c, s, Watching)
  }

  // ---------------------------------------------------------------- the invariant

  ghost predicate Inv(c: Config, s: State) {
    && |s.turns| == c.n
    && (forall w :: 0 <= w < c.n ==> s.turns[w] <= c.times)
    && s.count == Sum(s.turns) + (if s.watcher.Gone? then 125 else 0)
    && s.signals == (if 1 <= c.limit <= Sum(s.turns) then 1 else 0)
    && (s.watcher.Blocked? ==> s.count < c.limit)
    && (s.watcher.Gone? ==> Sum(s.turns) >= c.limit)
  }

  lemma StepKeepsInv(c: Config, s: State, a: Actor)
    requires Inv(c, s) && Enabled(c, s, a)
    ensures Inv(c, Next(c, s, a))
  {
    if a.Counter? {
      SumUpdate(s.turns, a.w, s.turns[a.w] + 1);
    }
  }

  lemma {:induction false} LeadsInv(c: Config, schedule: seq<Actor>, s: State)
    requires Leads(c, schedule, s)
    ensures Inv(c, s)
    decreases schedule
  {
    if schedule == [] {
      SumZero(s.turns);
    } else {
      var a := schedule[|schedule| - 1];
      var r :| Leads(c, schedule[..|schedule| - 1], r) && Follows(c, r, a, s);
      LeadsInv(c, schedule[..|schedule| - 1], r);
      StepKeepsInv(c, r, a);
    }
  }

  lemma {:induction false} SumOfAtMost(xs: seq<nat>, m: nat)
    requires forall i :: 0 <= i < |xs| ==> xs[i] <= m
    ensures Sum(xs) <= |xs| * m
    ensures (forall i :: 0 <= i < |xs| ==> xs[i] == m) ==> Sum(xs) == |xs| * m
  {
    if xs != [] {
      SumOfAtMost(xs[..|xs| - 1], m);
      assert |xs| * m == (|xs| - 1) * m + m;
    }
  }

  // ---------------------------------------------------------------- main results

  /**
   The wakeup is never lost: in every interleaving a blocked watcher has nothing to be woken for yet, and the signal is
   given once, by the thread that reaches the limit.
   */
  lemma BlockedOnlyBelowTheLimit(c: Config, schedule: seq<Actor>, s: State)
    requires Leads(c, schedule, s)
    ensures s.watcher.Blocked? ==> s.count < c.limit && s.signals == 0
    ensures s.signals == 1 <==> 1 <= c.limit <= Sum(s.turns)
    ensures s.signals <= 1
    ensures s.watcher.Gone? ==> s.count >= c.limit + 125
  {
    LeadsInv(c, schedule, s);
  }

  /**
   When no thread can move the count is what it must be, and the watcher has gone exactly when the threads count far
   enough; otherwise it is blocked for ever.
   */
  lemma RestsWithTheFullCount(c: Config, schedule: seq<Actor>, s: State)
    requires Leads(c, schedule, s) && AtRest(c, s)
    ensures s.watcher.Gone? <==> c.n * c.times >= c.limit
    ensures !s.watcher.Gone? ==> s.watcher.Blocked?
    ensures s.count == c.n * c.times + if c.n * c.times >= c.limit then 125 else 0
    ensures s.signals == if 1 <= c.limit <= c.n * c.times then 1 else 0
  {
    LeadsInv(c, schedule, s);
    forall w: nat | w < c.n ensures s.turns[w] == c.times {
      assert !Enabled(c, s, Counter(w));
    }
    SumOfAtMost(s.turns, c.times);
  }

  /** A thread has counted as often as the schedule gave it a turn. */
  lemma {:induction false} CountsItsOwnTurns(c: Config, schedule: seq<Actor>, s: State, w: nat)
    requires Leads(c, schedule, s) && w < c.n
    ensures |s.turns| == c.n && s.turns[w] == multiset(schedule)[Counter(w)]
    decreases schedule
  {
    if schedule != [] {
      var init, a := schedule[..|schedule| - 1], schedule[|schedule| - 1];
      var r :| Leads(c, init, r) && Follows(c, r, a, s);
      CountsItsOwnTurns(c, init, r, w);
      assert schedule == init + [a];
    }
  }

  function SpuriousIn(schedule: seq<Actor>): nat {
    if schedule == [] then 0
    else SpuriousIn(schedule[..|schedule| - 1]) + if schedule[|schedule| - 1].Spurious? then 1 else 0
  }

  /** The steps the watcher owes. */
  function Owed(watcher: Watcher): nat {
    match watcher case Starting => 1 case Woken => 1 case Blocked => 0 case Gone => 0
  }

  lemma {:induction false} StepsTaken(c: Config, schedule: seq<Actor>, s: State)
    requires Leads(c, schedule, s)
    ensures |schedule| + Owed(s.watcher) <= Sum(s.turns) + 2 * SpuriousIn(schedule) + 1 + s.signals
    decreases schedule
  {
    if schedule == [] {
      SumZero(s.turns);
    } else {
      var a := schedule[|schedule| - 1];
      var r :| Leads(c, schedule[..|schedule| - 1], r) && Follows(c, r, a, s);
      StepsTaken(c, schedule[..|schedule| - 1], r);
      if a.Counter? {
        SumUpdate(r.turns, a.w, r.turns[a.w] + 1);
      }
    }
  }

  /** Apart from wakeups without a signal, and one more look at the count for each of them, every run is bounded. */
  lemma EveryRunEnds(c: Config, schedule: seq<Actor>, s: State)
    requires Leads(c, schedule, s)
    ensures |schedule| <= c.n * c.times + 2 * SpuriousIn(schedule) + 2
  {
    LeadsInv(c, schedule, s);
    StepsTaken(c, schedule, s);
    SumOfAtMost(s.turns, c.times);
  }
}
