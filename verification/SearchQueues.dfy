/**
 The two linked queues of pfind, on the heap. Both keep `first`, `last` and `len`; `last` is stale while a queue is
 empty, and the `next` of an entry that has been removed is stale until the entry is enqueued again.
 */
module SearchQueues {
  import opened Options
  import opened SearchProtocol
  import Protocol = SearchProtocol

  // ---------------------------------------------------------------- the directories queue

  /** A fresh entry stands for zeroed memory from `malloc`. */
  class DirEntry {
    var dir: nat
    var path: string
    var next: DirEntry?

    constructor ()
      ensures next == null
    {
      next := null;
    }
  }

  /** The directories that entries hold. */
  ghost function OpenedIn(nodes: seq<DirEntry>): (s: seq<Opened>)
    reads nodes
  {
    seq(|nodes|, i requires 0 <= i < |nodes| reads nodes => Opened(nodes[i].dir, nodes[i].path))
  }

  class DirQueue {
    var first: DirEntry?
    var last: DirEntry?
    var len: nat
    ghost var nodes: seq<DirEntry>

    /** `nodes` are the entries of the chain, without repetition; an empty queue says nothing of `last`. */
    ghost predicate Valid()
      reads this, nodes
    {
      && (forall i, j :: 0 <= i < j < |nodes| ==> nodes[i] != nodes[j])
      && len == |nodes|
      && (forall i, j :: 0 <= i && j == i + 1 && j < |nodes| ==> nodes[i].next == nodes[j])
      && (nodes == [] ==> first == null)
      && (nodes != [] ==> first == nodes[0] && last == nodes[|nodes| - 1] && last.next == null)
    }

    ghost function Contents(): (s: seq<Opened>)
      reads this, nodes
    {
      OpenedIn(nodes)
    }

    /** The memory is zeroed: `first` and `len` are never assigned. */
    constructor ()
      ensures Valid() && Contents() == []
    {
      first, last, len, nodes := null, null, 0, [];
    }

    method Enqueue(dir: nat, path: string)
      requires Valid()
      modifies this, nodes
      ensures Valid() && last != null && fresh(last) && nodes == old(nodes) + [last]
      ensures Contents() == old(Contents()) + [Opened(dir, path)]
    {
      ghost var before := Contents();
      if len == 0 {
        first := new DirEntry();
        last := first;
      } else {
        last.next := new DirEntry();
        last := last.next;
      }
      last.dir := dir;
      last.path := path;
      len := len + 1;
      nodes := nodes + [last];
      assert Contents()[..|before|] == before;
    }

    /** The entry that was first, or null; what it holds can still be read, and it is out of the queue. */
    method Dequeue() returns (ret: DirEntry?)
      requires Valid()
      modifies this
      ensures Valid()
      ensures ret == null <==> old(Contents()) == []
      ensures ret == null ==> Contents() == []
      ensures ret != null ==> ret !in nodes && [Opened(ret.dir, ret.path)] + Contents() == old(Contents())
      ensures ret == null ==> nodes == old(nodes)
      ensures ret != null ==> old(nodes) != [] && nodes == old(nodes)[1..]
    {
      if first == null {
        return null;
      }
      ret := first;
      first := first.next;
      len := len - 1;
      nodes := nodes[1..];
    }
  }

  // ---------------------------------------------------------------- the threads queue

  /** A worker's entry; `owner` stands for the condition variable it points to. */
  class ThreadEntry {
    const owner: nat
    var dir: Option<nat>
    var path: string
    var next: ThreadEntry?

    constructor (owner: nat) {
      this.owner := owner;
    }
  }

  /** The workers whose entries these are. */
  ghost function Owners(nodes: seq<ThreadEntry>): (s: seq<nat>)
    ensures |s| == |nodes| && forall i :: 0 <= i < |nodes| ==> s[i] == nodes[i].owner
  {
    seq(|nodes|, i requires 0 <= i < |nodes| => nodes[i].owner)
  }

  lemma OwnersAfterFirst(nodes: seq<ThreadEntry>)
    requires nodes != []
    ensures [nodes[0].owner] + Owners(nodes[1..]) == Owners(nodes) && Owners(nodes)[1..] == Owners(nodes[1..])
  {
  }

  lemma NotQueued(nodes: seq<ThreadEntry>, entry: ThreadEntry)
    requires entry.owner !in Owners(nodes)
    ensures entry !in nodes
  {
    assert forall i :: 0 <= i < |nodes| ==> Owners(nodes)[i] == nodes[i].owner;
  }

  class ThreadQueue {
    var first: ThreadEntry?
    var last: ThreadEntry?
    var len: nat
    ghost var nodes: seq<ThreadEntry>

    ghost predicate Valid()
      reads this, nodes`next
    {
      && (forall i, j :: 0 <= i < j < |nodes| ==> nodes[i] != nodes[j])
      && len == |nodes|
      && (forall i, j :: 0 <= i && j == i + 1 && j < |nodes| ==> nodes[i].next == nodes[j])
      && (nodes == [] ==> first == null)
      && (nodes != [] ==> first == nodes[0] && last == nodes[|nodes| - 1] && last.next == null)
    }

    /** The workers that sleep in the queue. */
    ghost function Contents(): (s: seq<nat>)
      reads this
    {
      Owners(nodes)
    }

    constructor ()
      ensures Valid() && Contents() == []
    {
      first, last, len, nodes := null, null, 0, [];
    }

    /** A worker's own entry becomes the last of the chain. */
    method Enqueue(entry: ThreadEntry)
      requires Valid() && entry !in nodes && entry.next == null
      modifies this, nodes`next
      ensures Valid() && nodes == old(nodes) + [entry]
      ensures Contents() == old(Contents()) + [entry.owner]
    {
      if len == 0 {
        first := entry;
        last := first;
      } else {
        last.next := entry;
        last := last.next;
      }
      len := len + 1;
      nodes := nodes + [entry];
    }

    method Dequeue() returns (ret: ThreadEntry?)
      requires Valid()
      modifies `first, `last, `len, `nodes
      ensures Valid()
      ensures ret == null <==> old(Contents()) == []
      ensures ret == null ==> Contents() == []
      ensures ret != null ==> old(nodes) != [] && ret == old(nodes)[0] && nodes == old(nodes)[1..] && ret !in nodes
      ensures ret != null ==> [ret.owner] + Contents() == old(Contents())
    {
      if first == null {
        return null;
      }
      OwnersAfterFirst(nodes);
      ret := first;
      first := first.next;
      len := len - 1;
      if len == 1 {
        last := first;
      }
      nodes := nodes[1..];
    }

    /** The walk at shutdown signals every worker of the queue once, in order. */
    method SignalAll() returns (signalled: seq<nat>)
      requires Valid()
      ensures signalled == Contents()
    {
      signalled := [];
      var th := first;
      while th != null
        invariant |signalled| <= |nodes| && signalled == Contents()[..|signalled|]
        invariant th == if |signalled| < |nodes| then nodes[|signalled|] else null
        decreases |nodes| - |signalled|
      {
        signalled := signalled + [th.owner];
        th := th.next;
      }
    }
  }

  // ---------------------------------------------------------------- the lock regions of the protocol, on these queues

  /** The queues hold what the state of the protocol says they hold. */
  ghost predicate Represent(dirQ: DirQueue, threadQ: ThreadQueue, s: State)
    reads dirQ, dirQ.nodes, threadQ, threadQ.nodes`next
  {
    dirQ.Valid() && threadQ.Valid() && dirQ.Contents() == s.dirQ && threadQ.Contents() == s.threadQ
  }

  /** The entry of worker w holds what the state of the protocol says it holds. */
  ghost predicate IsEntryOf(entry: ThreadEntry, s: State, w: nat)
    reads entry
  {
    w < |s.workers| && entry.owner == w && entry.dir == s.workers[w].dir && entry.path == s.workers[w].path
  }

  /** Looking for a directory takes the queue and the worker's entry through the protocol's step. */
  method TakeDirectory(dirQ: DirQueue, threadQ: ThreadQueue, entry: ThreadEntry, ghost s: State) returns (found: bool)
    requires Represent(dirQ, threadQ, s) && IsEntryOf(entry, s, entry.owner) && entry !in threadQ.nodes
    modifies dirQ, entry
    ensures var s' := Protocol.TakeDirectory(s, entry.owner);
      && Represent(dirQ, threadQ, s') && IsEntryOf(entry, s', entry.owner)
      && (found <==> s'.workers[entry.owner].pc.Scanning?)
  {
    var next := dirQ.Dequeue();
    found := next != null;
    if found {
      entry.dir := Some(next.dir);
      entry.path := next.path;
    }
  }

  /**
   The lock region: a worker that has opened a subdirectory takes the first sleeper, or queues it when none sleeps.
   */
  method TakeSleeper(dirQ: DirQueue, threadQ: ThreadQueue, child: nat, path: string, ghost s: State, ghost w: nat)
    returns (sleeper: ThreadEntry?)
    requires Represent(dirQ, threadQ, s) && w < |s.workers| && s.workers[w].pc == Holding(child, path)
    modifies dirQ, dirQ.nodes, threadQ
    ensures Represent(dirQ, threadQ, Protocol.Deliver(s, w))
    ensures sleeper == null ==> s.threadQ == [] && threadQ.nodes == []
    ensures sleeper != null ==>
      && s.threadQ != [] && sleeper.owner == s.threadQ[0]
      && old(threadQ.nodes) != [] && sleeper == old(threadQ.nodes)[0] && sleeper !in threadQ.nodes
  {
    sleeper := threadQ.Dequeue();
    if sleeper == null {
      dirQ.Enqueue(child, path);
    }
  }

  lemma DeliverTakesTheFirst(s: State, w: nat)
    requires w < |s.workers| && s.workers[w].pc.Holding?
    ensures var k, s' := s.workers[w], Protocol.Deliver(s, w);
      && |s'.workers| == |s.workers| && (forall v :: 0 <= v < |s.workers| && v != w ==> s'.workers[v] == s.workers[v])
      && (s.threadQ != [] ==> s'.workers[w].pc == Passing(k.pc.child, k.pc.childPath, s.threadQ[0], 0))
  {
  }

  /** The state after the two steps outside the lock that fill in the sleeper's entry, before the signal. */
  ghost function FilledIn(s: State, w: nat): (r: State)
    requires w < |s.workers| && s.workers[w].pc.Passing? && s.workers[w].pc.stage == 0
    requires s.workers[w].pc.sleeper < |s.workers| && s.workers[w].pc.sleeper != w
    ensures |r.workers| == |s.workers| && r == s.(workers := r.workers)
    ensures var pc := s.workers[w].pc;
      && r.workers[w].pc == pc.(stage := 2)
      && r.workers[pc.sleeper] == s.workers[pc.sleeper].(dir := Some(pc.child), path := pc.childPath)
  {
    Pass(Pass(s, w), w)
  }

  /** Outside the lock: the sleeper's entry is filled in, and the queues are left alone. */
  method FillIn(dirQ: DirQueue, threadQ: ThreadQueue, entry: ThreadEntry, child: nat, path: string, ghost s: State,
    ghost w: nat)
    requires Represent(dirQ, threadQ, s) && IsEntryOf(entry, s, entry.owner) && entry.owner != w
    requires w < |s.workers| && s.workers[w].pc == Passing(child, path, entry.owner, 0)
    modifies entry`dir, entry`path
    ensures Represent(dirQ, threadQ, FilledIn(s, w)) && IsEntryOf(entry, FilledIn(s, w), entry.owner)
    ensures entry.dir == Some(child) && entry.path == path
  {
    entry.dir := Some(child);
    entry.path := path;
  }

  /**
   A worker that has opened a subdirectory hands it to the first sleeper, if there is one, and otherwise queues it. The
   queues and the sleeper's entry go through the protocol's step for the lock region and the two steps that fill in the
   entry; what is left to do is the signal.
   */
  method Deliver(dirQ: DirQueue, threadQ: ThreadQueue, child: nat, path: string, ghost s: State, ghost w: nat)
    returns (sleeper: ThreadEntry?)
    requires Represent(dirQ, threadQ, s) && w < |s.workers| && s.workers[w].pc == Holding(child, path)
    requires threadQ.nodes != [] ==>
      IsEntryOf(threadQ.nodes[0], s, threadQ.nodes[0].owner) && threadQ.nodes[0].owner != w
    modifies dirQ, dirQ.nodes, threadQ, threadQ.nodes
    ensures sleeper == null <==> s.threadQ == []
    ensures sleeper == null ==> Represent(dirQ, threadQ, Protocol.Deliver(s, w))
    ensures sleeper != null ==>
      && sleeper in old(threadQ.nodes) && sleeper !in threadQ.nodes && sleeper.dir == Some(child)
        && sleeper.path == path
      && var s' := Protocol.Deliver(s, w);
      && s'.workers[w].pc == Passing(child, path, sleeper.owner, 0) && sleeper.owner < |s'.workers|
        && sleeper.owner != w
      && Represent(dirQ, threadQ, FilledIn(s', w)) && IsEntryOf(sleeper, FilledIn(s', w), sleeper.owner)
  {
    DeliverTakesTheFirst(s, w);
    sleeper := TakeSleeper(dirQ, threadQ, child, path, s, w);
    if sleeper != null {
      assert IsEntryOf(sleeper, Protocol.Deliver(s, w), sleeper.owner);
      FillIn(dirQ, threadQ, sleeper, child, path, Protocol.Deliver(s, w), w);
    }
  }

  /**
   A worker that found no directory clears its entry, whatever `next` was left in it, and joins the queue, as in the
   protocol; it must signal main exactly when the queue then holds as many workers as have been initialized.
   */
  method FallAsleep(dirQ: DirQueue, threadQ: ThreadQueue, entry: ThreadEntry, ghost s: State, initialized: nat)
    returns (signal: bool)
    requires Represent(dirQ, threadQ, s) && IsEntryOf(entry, s, entry.owner) && entry !in threadQ.nodes
      && initialized == s.initialized
    modifies threadQ, threadQ.nodes`next, entry
    ensures var s' := Protocol.FallAsleep(s, entry.owner);
      && Represent(dirQ, threadQ, s') && IsEntryOf(entry, s', entry.owner)
      && s' == if signal then SignalAllSleep(s'.(main := s.main)) else s'.(main := s.main)
    ensures threadQ.nodes == old(threadQ.nodes) + [entry]
    ensures signal <==> |threadQ.nodes| == initialized
  {
    entry.dir := None;
    entry.path := "";
    entry.next := null;
    threadQ.Enqueue(entry);
    signal := threadQ.len == initialized;
  }

  // ---------------------------------------------------------------- first in, first out

  datatype Operation<T> = Put(value: T) | Take

  /** What a sequence of operations leaves in a queue and what it has taken out, when each is as specified above. */
  datatype History<T> = History(queue: seq<T>, taken: seq<T>)

  function Perform<T>(ops: seq<Operation<T>>): History<T> {
    if ops == [] then History([], []) else
    var h := Perform(ops[..|ops| - 1]);
    match ops[|ops| - 1]
    case Put(x) => h.(queue := h.queue + [x])
    case Take => if h.queue == [] then h else History(h.queue[1..], h.taken + [h.queue[0]])
  }

  function PutBy<T>(ops: seq<Operation<T>>): seq<T> {
    if ops == [] then [] else
    PutBy(ops[..|ops| - 1]) + match ops[|ops| - 1] case Put(x) => [x] case Take => []
  }

  lemma PerformPut<T>(ops: seq<Operation<T>>, x: T)
    ensures Perform(ops + [Put(x)]) == History(Perform(ops).queue + [x], Perform(ops).taken)
  {
    assert (ops + [Put(x)])[..|ops|] == ops;
  }

  /** `first` is what a Take finds, and `rest` what it leaves. */
  lemma PerformTake<T>(ops: seq<Operation<T>>, first: seq<T>, rest: seq<T>)
    requires Perform(ops).queue == first + rest && |first| <= 1 && (first == [] ==> rest == [])
    ensures Perform(ops + [Take]) == History(rest, Perform(ops).taken + first)
  {
    assert (ops + [Take])[..|ops|] == ops;
    if first != [] {
      assert (first + rest)[1..] == rest;
    }
  }

  /** Under any mix of operations what comes out is what went in, in order, and the rest is still in the queue. */
  lemma {:induction false} FirstInFirstOut<T>(ops: seq<Operation<T>>)
    ensures Perform(ops).taken + Perform(ops).queue == PutBy(ops)
  {
    if ops != [] {
      FirstInFirstOut(ops[..|ops| - 1]);
    }
  }

  /** One operation on the linked queue of directories, after others. */
  method OperateOnDirs(q: DirQueue, op: Operation<Opened>, ghost ops: seq<Operation<Opened>>)
    returns (first: seq<Opened>)
    requires q.Valid() && q.Contents() == Perform(ops).queue
    modifies q, q.nodes
    ensures q.Valid() && History(q.Contents(), Perform(ops).taken + first) == Perform(ops + [op])
    ensures forall i :: 0 <= i < |q.nodes| ==> q.nodes[i] in old(q.nodes) || fresh(q.nodes[i])
  {
    match op
    case Put(x) =>
      PerformPut(ops, x);
      q.Enqueue(x.dir, x.path);
      first := [];
    case Take =>
      var entry := q.Dequeue();
      first := if entry == null then [] else [Opened(entry.dir, entry.path)];
      PerformTake(ops, first, q.Contents());
  }

  /** Any series of operations leaves in the linked queue of directories, and takes out of it, what it should. */
  method RunDirs(ops: seq<Operation<Opened>>) returns (q: DirQueue, taken: seq<Opened>)
    ensures fresh(q) && (forall i :: 0 <= i < |q.nodes| ==> fresh(q.nodes[i]))
    ensures q.Valid() && History(q.Contents(), taken) == Perform(ops)
    decreases |ops|
  {
    if ops == [] {
      q := new DirQueue();
      taken := [];
    } else {
      var before, op := ops[..|ops| - 1], ops[|ops| - 1];
      q, taken := RunDirs(before);
      assert before + [op] == ops;
      var first := OperateOnDirs(q, op, before);
      taken := taken + first;
    }
  }

  method PutThread(q: ThreadQueue, entry: ThreadEntry, ghost ops: seq<Operation<nat>>)
    requires q.Valid() && q.Contents() == Perform(ops).queue && entry.owner !in Perform(ops).queue
    modifies q, q.nodes`next, entry`next
    ensures q.Valid() && History(q.Contents(), Perform(ops).taken) == Perform(ops + [Put(entry.owner)])
    ensures q.nodes == old(q.nodes) + [entry]
  {
    PerformPut(ops, entry.owner);
    NotQueued(q.nodes, entry);
    entry.next := null;
    q.Enqueue(entry);
  }

  /**
   One operation on the linked queue of threads, after others: a worker enqueues its own entry, if it is not in the
   queue.
   */
  method OperateOnThreads(q: ThreadQueue, entries: seq<ThreadEntry>, op: Operation<nat>, ghost ops: seq<Operation<nat>>)
    returns (first: seq<nat>)
    requires q.Valid() && q.Contents() == Perform(ops).queue
    requires op.Put? ==> op.value < |entries| && entries[op.value].owner == op.value && op.value !in Perform(ops).queue
    modifies q, q.nodes`next, entries`next
    ensures q.Valid() && History(q.Contents(), Perform(ops).taken + first) == Perform(ops + [op])
    ensures forall i :: 0 <= i < |q.nodes| ==> q.nodes[i] in old(q.nodes) || q.nodes[i] in entries
  {
    match op
    case Put(w) =>
      PutThread(q, entries[w], ops);
      first := [];
    case Take =>
      var entry := q.Dequeue();
      first := if entry == null then [] else [entry.owner];
      PerformTake(ops, first, q.Contents());
  }

  /** Workers enqueue only while they are not in the queue. */
  ghost predicate MayPerform(ops: seq<Operation<nat>>, n: nat) {
    forall k :: 0 <= k < |ops| && ops[k].Put? ==> ops[k].value < n && ops[k].value !in Perform(ops[..k]).queue
  }

  /** The same for the threads queue, whose entries belong to the workers and come back with a stale `next`. */
  method RunThreads(entries: seq<ThreadEntry>, ops: seq<Operation<nat>>) returns (q: ThreadQueue, taken: seq<nat>)
    requires MayPerform(ops, |entries|) && forall w :: 0 <= w < |entries| ==> entries[w].owner == w
    modifies entries`next
    ensures fresh(q) && (forall i :: 0 <= i < |q.nodes| ==> q.nodes[i] in entries)
    ensures q.Valid() && History(q.Contents(), taken) == Perform(ops)
    decreases |ops|
  {
    if ops == [] {
      q := new ThreadQueue();
      taken := [];
    } else {
      var before, op := ops[..|ops| - 1], ops[|ops| - 1];
      assert forall k :: 0 <= k < |before| ==> before[..k] == ops[..k];
      q, taken := RunThreads(entries, before);
      assert before + [op] == ops;
      var first := OperateOnThreads(q, entries, op, before);
      taken := taken + first;
    }
  }
}
