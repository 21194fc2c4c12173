/** Threads that share the search for primes by drawing numbers from one atomic counter. */
module PrimeSharing {
  import opened Sums

  // ---------------------------------------------------------------- the primality test

  predicate Prime(x: int) {
    x >= 2 && forall d :: 2 <= d < x ==> x % d != 0
  }

  /** What `is_prime` answers: it tries the divisors strictly below x / 2. */
  predicate Verdict(x: int) {
    forall d :: 2 <= d < x / 2 ==> x % d != 0
  }

  /** A proper divisor is at most the half, and is the half only of an even number. */
  lemma ProperDivisor(x: int, d: int)
    requires 2 <= d < x && x % d == 0
    ensures d < x / 2 || x == 2 * d
  {
    var k := x / d;
    assert x == d * k;
    assert k <= 1 ==> d * k <= d;
    assert k >= 3 ==> d * k >= d * 3;
  }

  lemma EvenIsCaught(d: int)
    requires d > 2
    ensures !Verdict(2 * d)
  {
    assert (2 * d) % 2 == 0;
  }

  /** The test is right, except that it takes 4 and every number below 2 for a prime. */
  lemma VerdictIsPrimalityButForFour(x: int)
    ensures Verdict(x) <==> Prime(x) || x == 4 || x < 2
  {
    if x >= 2 && Verdict(x) && !Prime(x) {
      var d :| 2 <= d < x && x % d == 0;
      ProperDivisor(x, d);
      if d > 2 {
        EvenIsCaught(d);
      }
    }
  }

  method IsPrime(x: int) returns (answer: bool)
    ensures answer <==> Verdict(x)
    ensures answer <==> Prime(x) || x == 4 || x < 2
  {
    VerdictIsPrimalityButForFour(x);
    var i := 2;
    while i < x / 2
      invariant 2 <= i && forall d :: 2 <= d < i && d < x / 2 ==> x % d != 0
    {
      if x % i == 0 {
        return false;
      }
      i := i + 1;
    }
    return true;
  }

  // ---------------------------------------------------------------- the threads

  datatype Phase = Looping | Judging | Returned

  /** The locals of `prime_print`: `j` is the last number drawn and `i` how many have been. */
  datatype Worker = Worker(phase: Phase, j: nat, i: nat)

  datatype Draw = Draw(thread: nat, value: nat)

  /** The shared counter and the threads; `draws` and `printed` record what has happened, in order. */
  datatype State = State(counter: nat, workers: seq<Worker>, draws: seq<Draw>, printed: seq<nat>)

  function Init(n: nat): State {
    State(1, seq(n, _ => Worker(Looping, 0, 0)), [], [])
  }

  /** `++counter` is one step; testing the number and printing it is another. */
  function Next(total: int, s: State, w: nat): State
    requires w < |s.workers|
  {
    var k := s.workers[w];
    match k.phase
    case Looping =>
      if k.j < total then
        s.(counter := s.counter + 1, workers := s.workers[w := Worker(Judging, s.counter + 1, k.i + 1)],
           draws := s.draws + [Draw(w, s.counter + 1)])
      else
        s.(workers := s.workers[w := k.(phase := Returned)])
    case Judging =>
      s.(workers := s.workers[w := k.(phase := Looping)], printed := s.printed + if Verdict(k.j) then [k.j] else [])
    case Returned => s
  }

  /** The state after a schedule of threads that have not returned. */
  ghost predicate Leads(total: int, n: nat, schedule: seq<nat>, s: State)
    decreases schedule
  {
    if schedule == [] then s == Init(n) else
    var w := schedule[|schedule| - 1];
    exists r :: Leads(total, n, schedule[..|schedule| - 1], r) && w < |r.workers| && !r.workers[w].phase.Returned?
      && s == Next(total, r, w)
  }

  ghost predicate Complete(s: State) {
    forall w :: 0 <= w < |s.workers| ==> s.workers[w].phase.Returned?
  }

  // ---------------------------------------------------------------- the invariant

  /** The smallest number whose draw ends a thread. */
  function Threshold(total: int): nat {
    if total < 2 then 2 else total
  }

  /** 1 for the threads that have drawn their last number. */
  function EndedBits(total: int, workers: seq<Worker>): (bits: seq<nat>)
    ensures |bits| == |workers|
  {
    seq(|workers|, w requires 0 <= w < |workers| => if workers[w].j >= total then 1 else 0)
  }

  function DrawCounts(workers: seq<Worker>): (counts: seq<nat>)
    ensures |counts| == |workers|
  {
    seq(|workers|, w requires 0 <= w < |workers| => workers[w].i)
  }

  function DrawnBy(draws: seq<Draw>, w: nat): nat {
    if draws == [] then 0
    else DrawnBy(draws[..|draws| - 1], w) + if draws[|draws| - 1].thread == w then 1 else 0
  }

  ghost predicate BeingJudged(workers: seq<Worker>, v: nat) {
    exists w :: 0 <= w < |workers| && workers[w].phase.Judging? && workers[w].j == v
  }

  ghost predicate DrawsOk(n: nat, s: State) {
    && |s.workers| == n
    && s.counter == |s.draws| + 1
    && (forall k :: 0 <= k < |s.draws| ==> s.draws[k].value == k + 2 && s.draws[k].thread < n)
    && (forall w :: 0 <= w < n ==> s.workers[w].i == DrawnBy(s.draws, w))
  }

  ghost predicate CountersOk(total: int, s: State) {
    && Sum(DrawCounts(s.workers)) == s.counter - 1
    && s.counter >= 1
    && if total <= 0 then s.counter == 1
       else Sum(EndedBits(total, s.workers)) == if s.counter < Threshold(total) then 0
         else s.counter - Threshold(total) + 1
  }

  ghost predicate HandsOk(total: int, s: State) {
    && (forall w :: 0 <= w < |s.workers| ==> s.workers[w].j <= s.counter && s.workers[w].j != 1)
    && (forall w :: 0 <= w < |s.workers| && s.workers[w].phase.Judging? ==> s.workers[w].j >= 2)
    && (forall w :: 0 <= w < |s.workers| && s.workers[w].phase.Returned? ==> s.workers[w].j >= total)
    && (forall u, w :: 0 <= u < w < |s.workers| && s.workers[u].j == s.workers[w].j ==> s.workers[u].j == 0)
  }

  ghost predicate PrintedOk(s: State) {
    && (forall v: nat :: v in s.printed <==> 2 <= v <= s.counter && Verdict(v) && !BeingJudged(s.workers, v))
    && (forall a, b :: 0 <= a < b < |s.printed| ==> s.printed[a] != s.printed[b])
  }

  ghost predicate Inv(total: int, n: nat, s: State) {
    DrawsOk(n, s) && CountersOk(total, s) && HandsOk(total, s) && PrintedOk(s)
  }

  lemma InitInv(total: int, n: nat)
    ensures Inv(total, n, Init(n))
  {
    SumZero(DrawCounts(Init(n).workers));
    SumZero(EndedBits(total, Init(n).workers));
  }

  lemma DrawsKept(total: int, n: nat, s: State, w: nat)
    requires w < |s.workers| && DrawsOk(n, s)
    ensures DrawsOk(n, Next(total, s, w))
  {
    var s' := Next(total, s, w);
    if s'.draws != s.draws {
      assert s'.draws[..|s'.draws| - 1] == s.draws;
    }
  }

  lemma CountersKept(total: int, s: State, w: nat)
    requires w < |s.workers| && CountersOk(total, s) && HandsOk(total, s)
    ensures CountersOk(total, Next(total, s, w))
  {
    var s' := Next(total, s, w);
    var k' := s'.workers[w];
    assert DrawCounts(s'.workers) == DrawCounts(s.workers)[w := k'.i];
    assert EndedBits(total, s'.workers) == EndedBits(total, s.workers)[w := if k'.j >= total then 1 else 0];
    SumUpdate(DrawCounts(s.workers), w, k'.i);
    SumUpdate(EndedBits(total, s.workers), w, if k'.j >= total then 1 else 0);
  }

  lemma HandsKept(total: int, s: State, w: nat)
    requires w < |s.workers| && HandsOk(total, s) && CountersOk(total, s)
    ensures HandsOk(total, Next(total, s, w))
  {
  }

  lemma PrintedKept(total: int, s: State, w: nat)
    requires w < |s.workers| && HandsOk(total, s) && CountersOk(total, s) && PrintedOk(s)
    ensures PrintedOk(Next(total, s, w))
  {
    var s' := Next(total, s, w);
    forall v: nat ensures v in s'.printed <==> 2 <= v <= s'.counter && Verdict(v) && !BeingJudged(s'.workers, v) {
      PrintedAfter(total, s, w, v);
    }
    JudgedAfter(total, s, w, s.workers[w].j);
  }

  lemma PrintedAfter(total: int, s: State, w: nat, v: nat)
    requires w < |s.workers| && HandsOk(total, s) && CountersOk(total, s) && PrintedOk(s)
    ensures var s' := Next(total, s, w);
      v in s'.printed <==> 2 <= v <= s'.counter && Verdict(v) && !BeingJudged(s'.workers, v)
  {
    JudgedAfter(total, s, w, v);
  }

  /** A number is in a thread's hands from its draw to its test, and in no other's. */
  lemma JudgedAfter(total: int, s: State, w: nat, v: nat)
    requires w < |s.workers| && HandsOk(total, s) && CountersOk(total, s)
    ensures var k, s' := s.workers[w], Next(total, s, w);
      BeingJudged(s'.workers, v) <==>
        if k.phase.Looping? && k.j < total then v == s.counter + 1 || BeingJudged(s.workers, v)
        else BeingJudged(s.workers, v) && !(k.phase.Judging? && v == k.j)
    ensures s.workers[w].phase.Judging? ==> BeingJudged(s.workers, s.workers[w].j)
    ensures BeingJudged(s.workers, v) ==> 2 <= v <= s.counter
  {
    var s' := Next(total, s, w);
    if BeingJudged(s.workers, v) {
      var u :| 0 <= u < |s.workers| && s.workers[u].phase.Judging? && s.workers[u].j == v;
      assert u != w ==> s'.workers[u] == s.workers[u];
    }
    assert s'.workers[w].phase.Judging? ==> s'.workers[w].j == s.counter + 1;
  }

  lemma {:induction false} LeadsInv(total: int, n: nat, schedule: seq<nat>, s: State)
    requires Leads(total, n, schedule, s)
    ensures Inv(total, n, s)
    decreases schedule
  {
    if schedule == [] {
      InitInv(total, n);
    } else {
      var w := schedule[|schedule| - 1];
      var r :| Leads(total, n, schedule[..|schedule| - 1], r) && w < |r.workers| && !r.workers[w].phase.Returned?
        && s == Next(total, r, w);
      LeadsInv(total, n, schedule[..|schedule| - 1], r);
      DrawsKept(total, n, r, w);
      CountersKept(total, r, w);
      HandsKept(total, r, w);
      PrintedKept(total, r, w);
    }
  }

  // ---------------------------------------------------------------- main results

  /** The value of the counter when all threads have returned. */
  function FinalCounter(total: int, n: nat): nat {
    if total <= 0 then 1 else Threshold(total) + n - 1
  }

  lemma AllEnded(total: int, s: State)
    requires HandsOk(total, s) && Complete(s)
    ensures Sum(EndedBits(total, s.workers)) == |s.workers|
  {
    SumOfBits(EndedBits(total, s.workers));
  }

  /** However the n threads are interleaved, the counter ends at the same value, and their draws add up to it. */
  lemma CounterEndsTheSame(total: int, n: nat, schedule: seq<nat>, s: State)
    requires n >= 1 && Leads(total, n, schedule, s) && Complete(s)
    ensures |s.workers| == n && s.counter == FinalCounter(total, n)
    ensures s.counter == if total <= 0 then 1 else if total == 1 then n + 1 else total + n - 1
    ensures Sum(DrawCounts(s.workers)) == s.counter - 1
    ensures forall w :: 0 <= w < n ==> s.workers[w].i == DrawnBy(s.draws, w)
  {
    LeadsInv(total, n, schedule, s);
    AllEnded(total, s);
  }

  /** One turn more in a schedule. */
  lemma TurnsOf(schedule: seq<nat>, w: nat)
    requires schedule != []
    ensures var n := |schedule| - 1;
      multiset(schedule)[w] == multiset(schedule[..n])[w] + if schedule[n] == w then 1 else 0
  {
    assert schedule == schedule[..|schedule| - 1] + [schedule[|schedule| - 1]];
  }

  /**
   What a thread counts, and returns, is its own draws: each took two of its turns in the schedule, but for a number
   drawn and not yet judged, and returning took one more.
   */
  lemma {:induction false} CountsItsOwnTurns(total: int, n: nat, schedule: seq<nat>, s: State, w: nat)
    requires Leads(total, n, schedule, s) && w < n
    ensures |s.workers| == n
    ensures multiset(schedule)[w] == match s.workers[w].phase
      case Looping => 2 * s.workers[w].i
      case Judging => 2 * s.workers[w].i - 1
      case Returned => 2 * s.workers[w].i + 1
    decreases schedule
  {
    if schedule != [] {
      var init, v := schedule[..|schedule| - 1], schedule[|schedule| - 1];
      var r :| Leads(total, n, init, r) && v < |r.workers| && !r.workers[v].phase.Returned? && s == Next(total, r, v);
      CountsItsOwnTurns(total, n, init, r, w);
      TurnsOf(schedule, w);
    }
  }

  /** Draw k is the last that thread w made. */
  predicate LastDrawOf(draws: seq<Draw>, w: nat, k: nat) {
    k < |draws| && draws[k].thread == w && forall l :: k < l < |draws| ==> draws[l].thread != w
  }

  lemma LastDrawWithOneMore(draws: seq<Draw>, d: Draw, w: nat, k: nat)
    ensures LastDrawOf(draws + [d], w, k) <==> if d.thread == w then k == |draws| else LastDrawOf(draws, w, k)
  {
    var more := draws + [d];
    assert more[|draws|] == d;
    if d.thread != w && LastDrawOf(draws, w, k) {
      assert forall l :: k < l < |draws| ==> more[l] == draws[l];
    }
    if LastDrawOf(more, w, k) && k < |draws| {
      assert forall l :: k < l < |draws| ==> draws[l] == more[l];
    }
  }

  /** The thread has the number that it drew last, or none. */
  ghost predicate HasItsLastDraw(draws: seq<Draw>, w: nat, j: nat) {
    && (j == 0 || exists k: nat :: LastDrawOf(draws, w, k))
    && (forall k: nat :: LastDrawOf(draws, w, k) ==> j == draws[k].value)
  }

  lemma StepKeepsLastDraw(total: int, r: State, v: nat, w: nat)
    requires v < |r.workers| && w < |r.workers| && HasItsLastDraw(r.draws, w, r.workers[w].j)
    ensures var s := Next(total, r, v); HasItsLastDraw(s.draws, w, s.workers[w].j)
  {
    if r.workers[v].phase.Looping? && r.workers[v].j < total {
      var d := Draw(v, r.counter + 1);
      forall k: nat
        ensures LastDrawOf(r.draws + [d], w, k) <==> if v == w then k == |r.draws| else LastDrawOf(r.draws, w, k)
      {
        LastDrawWithOneMore(r.draws, d, w, k);
      }
      assert Next(total, r, v).draws == r.draws + [d];
      if v == w {
        assert LastDrawOf(r.draws + [d], w, |r.draws|);
      } else if r.workers[w].j != 0 {
        var k: nat :| LastDrawOf(r.draws, w, k);
        assert LastDrawOf(r.draws + [d], w, k);
      }
    }
  }

  lemma {:induction false} LastDrawKept(total: int, n: nat, schedule: seq<nat>, s: State, w: nat)
    requires Leads(total, n, schedule, s) && w < n
    ensures |s.workers| == n && HasItsLastDraw(s.draws, w, s.workers[w].j)
    decreases schedule
  {
    if schedule != [] {
      var init, v := schedule[..|schedule| - 1], schedule[|schedule| - 1];
      var r :| Leads(total, n, init, r) && v < |r.workers| && !r.workers[v].phase.Returned? && s == Next(total, r, v);
      LastDrawKept(total, n, init, r, w);
      StepKeepsLastDraw(total, r, v, w);
    }
  }

  /** The number in a thread's hands is the one it drew last; before its first draw it has none. */
  lemma HoldsItsLastDraw(total: int, n: nat, schedule: seq<nat>, s: State, w: nat)
    requires Leads(total, n, schedule, s) && w < n
    ensures |s.workers| == n
    ensures (forall k :: 0 <= k < |s.draws| ==> s.draws[k].thread != w) ==> s.workers[w].j == 0
    ensures forall k :: 0 <= k < |s.draws| && s.draws[k].thread == w ==>
      (forall l :: k < l < |s.draws| ==> s.draws[l].thread != w) ==> s.workers[w].j == s.draws[k].value
  {
    LastDrawKept(total, n, schedule, s, w);
    assert forall k: nat :: LastDrawOf(s.draws, w, k) ==> s.draws[k].thread == w;
  }

  /** Each number from 2 to the final counter is drawn once, by one thread; nothing else is drawn. */
  lemma EachNumberIsDrawnOnce(total: int, n: nat, schedule: seq<nat>, s: State, v: nat)
    requires n >= 1 && Leads(total, n, schedule, s) && Complete(s)
    ensures 2 <= v <= FinalCounter(total, n) <==> exists k :: 0 <= k < |s.draws| && s.draws[k].value == v
    ensures forall k, l ::
      0 <= k < |s.draws| && 0 <= l < |s.draws| && s.draws[k].value == s.draws[l].value == v ==> k == l
  {
    LeadsInv(total, n, schedule, s);
    CounterEndsTheSame(total, n, schedule, s);
    if 2 <= v <= s.counter {
      assert s.draws[v - 2].value == v;
    }
  }

  /** The numbers printed are the primes up to the final counter, and 4; each is printed once. */
  lemma PrintsThePrimesAndFour(total: int, n: nat, schedule: seq<nat>, s: State)
    requires n >= 1 && Leads(total, n, schedule, s) && Complete(s)
    ensures forall v: nat :: v in s.printed <==> 2 <= v <= FinalCounter(total, n) && (Prime(v) || v == 4)
    ensures forall a, b :: 0 <= a < b < |s.printed| ==> s.printed[a] != s.printed[b]
  {
    LeadsInv(total, n, schedule, s);
    CounterEndsTheSame(total, n, schedule, s);
    forall v: nat | v >= 2 ensures Verdict(v) <==> Prime(v) || v == 4 {
      VerdictIsPrimalityButForFour(v);
    }
  }

  // ---------------------------------------------------------------- every run ends

  /** The steps a thread owes: two after a draw, one before the next test of its loop. */
  function Owed(workers: seq<Worker>): (owed: seq<nat>)
    ensures |owed| == |workers|
  {
    seq(|workers|, w requires 0 <= w < |workers| =>
      match workers[w].phase case Judging => 2 case Looping => 1 case Returned => 0)
  }

  lemma OneStepTaken(total: int, r: State, w: nat)
    requires w < |r.workers| && !r.workers[w].phase.Returned?
    ensures var s := Next(total, r, w);
      s.counter >= r.counter && 1 + Sum(Owed(s.workers)) == Sum(Owed(r.workers)) + 2 * (s.counter - r.counter)
  {
    var s := Next(total, r, w);
    assert Owed(s.workers) == Owed(r.workers)[w := Owed(s.workers)[w]];
    SumUpdate(Owed(r.workers), w, Owed(s.workers)[w]);
  }

  lemma {:induction false} StepsTaken(total: int, n: nat, schedule: seq<nat>, s: State)
    requires Leads(total, n, schedule, s)
    ensures |schedule| + Sum(Owed(s.workers)) == 2 * (s.counter - 1) + n
    decreases schedule
  {
    if schedule == [] {
      OwedAtFirst(n);
    } else {
      var init, w := schedule[..|schedule| - 1], schedule[|schedule| - 1];
      var r :| Leads(total, n, init, r) && w < |r.workers| && !r.workers[w].phase.Returned? && s == Next(total, r, w);
      StepsTaken(total, n, init, r);
      OneStepTaken(total, r, w);
    }
  }

  lemma {:induction false} OwedAtFirst(n: nat)
    ensures Sum(Owed(Init(n).workers)) == n
  {
    SumOfBits(Owed(Init(n).workers));
  }

  /**
   No run is longer than this, and a run is complete exactly when it is this long: no thread can be kept from
   returning.
   */
  lemma EveryRunEnds(total: int, n: nat, schedule: seq<nat>, s: State)
    requires n >= 1 && Leads(total, n, schedule, s)
    ensures |schedule| <= 2 * (FinalCounter(total, n) - 1) + n
    ensures Complete(s) <==> |schedule| == 2 * (FinalCounter(total, n) - 1) + n
  {
    LeadsInv(total, n, schedule, s);
    StepsTaken(total, n, schedule, s);
    SumOfBits(EndedBits(total, s.workers));
    SumZero(Owed(s.workers));
    assert forall w :: 0 <= w < n ==> (Owed(s.workers)[w] == 0 <==> s.workers[w].phase.Returned?);
    if Complete(s) {
      CounterEndsTheSame(total, n, schedule, s);
    }
  }
}
