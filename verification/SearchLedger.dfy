/**
 Who has which directory. The ledger looks at a worker only through the directory it scans and the one it carries;
 every kind of step of the search is one of seven moves on it, and each move keeps the ledger balanced.
 */
module SearchLedger {
  import opened Options
  import opened SearchTree
  import opened SearchProtocol

  /** `scan` is the directory being read, `carry` one that is opened and about to be queued, passed on or read. */
  datatype View = View(scan: Option<nat>, carry: Option<nat>)

  function ViewOf(k: Worker): View {
    match k.pc
    case Scanning => View(k.dir, None)
    case Holding(child, _) => View(k.dir, Some(child))
    case Passing(child, _, _, _) => View(k.dir, Some(child))
    case Woken => View(None, k.dir)
    case _ => View(None, None)
  }

  function ViewsOf(workers: seq<Worker>): (v: seq<View>)
    ensures |v| == |workers| && forall w :: 0 <= w < |v| ==> v[w] == ViewOf(workers[w])
  {
    seq(|workers|, w requires 0 <= w < |workers| => ViewOf(workers[w]))
  }

  function QueuedDirs(q: seq<Opened>): (ds: seq<nat>)
    ensures |ds| == |q| && forall i :: 0 <= i < |q| ==> ds[i] == q[i].dir
  {
    seq(|q|, i requires 0 <= i < |q| => q[i].dir)
  }

  ghost predicate Holds(v: View, d: nat) {
    v.scan == Some(d) || v.carry == Some(d)
  }

  ghost predicate ScannedBy(views: seq<View>, d: nat) {
    exists u: nat :: u < |views| && views[u].scan == Some(d)
  }

  ghost predicate CarriedBy(views: seq<View>, d: nat) {
    exists u: nat :: u < |views| && views[u].carry == Some(d)
  }

  /** The entry that lists d has been read. */
  predicate Discovered(t: Tree, cursor: seq<nat>, d: nat)
    requires |t.links| == |t.items| == |cursor| && d < |t.items|
  {
    d == 0 || (t.links[d].parent < |cursor| && cursor[t.links[d].parent] > t.links[d].index)
  }

  /** d has been opened, and nobody has begun to read it. */
  predicate Unread(t: Tree, cursor: seq<nat>, log: seq<nat>, d: nat)
    requires |t.links| == |t.items| == |cursor|
  {
    d < |t.items| && Discovered(t, cursor, d) && cursor[d] == 0 && d !in log
  }

  /** No directory is in two hands, or in a hand and in the queue, or twice in the queue. */
  ghost predicate Exclusive(views: seq<View>, queue: seq<nat>) {
    && (forall u: nat, v: nat, d: nat :: 0 <= u < |views| && 0 <= v < |views| && u != v && Holds(views[u], d) ==>
      !Holds(views[v], d))
    && (forall u :: 0 <= u < |views| && views[u].scan.Some? ==> views[u].scan != views[u].carry)
    && (forall i, u :: 0 <= i < |queue| && 0 <= u < |views| ==> !Holds(views[u], queue[i]))
    && (forall i, j :: 0 <= i < j < |queue| ==> queue[i] != queue[j])
  }

  /** What is carried or queued is unread; what is scanned is in the log. */
  ghost predicate Staged(t: Tree, views: seq<View>, queue: seq<nat>, cursor: seq<nat>, log: seq<nat>)
    requires |t.links| == |t.items| == |cursor|
  {
    && (forall i :: 0 <= i < |queue| ==> Unread(t, cursor, log, queue[i]))
    && (forall u :: 0 <= u < |views| && views[u].carry.Some? ==> Unread(t, cursor, log, views[u].carry.value))
    && (forall u :: 0 <= u < |views| && views[u].scan.Some? ==> views[u].scan.value in log)
  }

  /** The log has no repetitions; a logged directory is being scanned or is finished; nothing else was touched. */
  ghost predicate Logged(t: Tree, views: seq<View>, cursor: seq<nat>, log: seq<nat>)
    requires |t.links| == |t.items| == |cursor|
  {
    && (forall i, j :: 0 <= i < j < |log| ==> log[i] != log[j])
    && (forall d: nat :: d in log ==>
      d < |t.items| && Discovered(t, cursor, d) && (cursor[d] == |t.items[d]| || ScannedBy(views, d)))
    && (forall d: nat :: d < |t.items| && d !in log ==> cursor[d] == 0)
  }

  /** No discovered directory is lost. */
  ghost predicate Complete(t: Tree, views: seq<View>, queue: seq<nat>, cursor: seq<nat>, log: seq<nat>)
    requires |t.links| == |t.items| == |cursor|
  {
    forall d: nat :: d < |t.items| && Discovered(t, cursor, d) ==> d in log || d in queue || CarriedBy(views, d)
  }

  ghost predicate Ledger(t: Tree, views: seq<View>, queue: seq<nat>, cursor: seq<nat>, log: seq<nat>) {
    && |t.links| == |t.items| == |cursor|
    && Exclusive(views, queue)
    && Staged(t, views, queue, cursor, log)
    && Logged(t, views, cursor, log)
    && Complete(t, views, queue, cursor, log)
  }

  /** Changing one worker does not touch what the others scan or carry. */
  lemma OthersKeepTheirs(views: seq<View>, w: nat, v: View)
    requires w < |views|
    ensures forall d: nat :: ScannedBy(views, d) && views[w].scan != Some(d) ==> ScannedBy(views[w := v], d)
    ensures forall d: nat :: CarriedBy(views, d) && views[w].carry != Some(d) ==> CarriedBy(views[w := v], d)
    ensures v.scan.Some? ==> ScannedBy(views[w := v], v.scan.value)
    ensures v.carry.Some? ==> CarriedBy(views[w := v], v.carry.value)
  {
    var views' := views[w := v];
    assert views'[w] == v;
    forall d: nat | ScannedBy(views, d) && views[w].scan != Some(d) ensures ScannedBy(views', d) {
      var u: nat :| u < |views| && views[u].scan == Some(d);
      assert views'[u].scan == Some(d);
    }
    forall d: nat | CarriedBy(views, d) && views[w].carry != Some(d) ensures CarriedBy(views', d) {
      var u: nat :| u < |views| && views[u].carry == Some(d);
      assert views'[u].carry == Some(d);
    }
  }

  /** Reading the next entry of d discovers the subdirectory it lists, if it lists one, and nothing else. */
  lemma DiscoveredByReading(t: Tree, cursor: seq<nat>, d: nat)
    requires IsTree(t) && |cursor| == |t.items| && d < |t.items| && cursor[d] < |t.items[d]|
    ensures var item := t.items[d][cursor[d]];
      forall c: nat :: c < |t.items| ==>
        (Discovered(t, cursor[d := cursor[d] + 1], c) <==>
          Discovered(t, cursor, c) || (IsSubdirectory(item) && item.kind.id == c))
    ensures var item := t.items[d][cursor[d]];
      IsSubdirectory(item) ==> item.kind.id < |t.items| && item.kind.id != d && !Discovered(t, cursor, item.kind.id)
  {
    var item := t.items[d][cursor[d]];
    assert ListsProperly(t, d, cursor[d]);
    if IsSubdirectory(item) {
      assert ListedAt(t, item.kind.id);
    }
    forall c: nat | c < |t.items|
      ensures Discovered(t, cursor[d := cursor[d] + 1], c) <==>
        Discovered(t, cursor, c) || (IsSubdirectory(item) && item.kind.id == c)
    {
      if c > 0 {
        assert ListedAt(t, c);
      }
    }
  }

  /** An entry that lists no subdirectory is read. */
  lemma ReadMove(t: Tree, views: seq<View>, queue: seq<nat>, cursor: seq<nat>, log: seq<nat>, w: nat, d: nat)
    requires IsTree(t) && Ledger(t, views, queue, cursor, log)
    requires w < |views| && views[w].scan == Some(d) && d < |t.items|
    requires cursor[d] < |t.items[d]| && !IsSubdirectory(t.items[d][cursor[d]])
    ensures Ledger(t, views, queue, cursor[d := cursor[d] + 1], log)
  {
    DiscoveredByReading(t, cursor, d);
  }

  /** A subdirectory is read and opened: the reader carries it. */
  lemma OpenMove(t: Tree, views: seq<View>, queue: seq<nat>, cursor: seq<nat>, log: seq<nat>, w: nat, d: nat)
    requires IsTree(t) && Ledger(t, views, queue, cursor, log)
    requires w < |views| && views[w] == View(Some(d), None) && d < |t.items|
    requires cursor[d] < |t.items[d]| && IsSubdirectory(t.items[d][cursor[d]])
    ensures var child := t.items[d][cursor[d]].kind.id;
      Ledger(t, views[w := View(Some(d), Some(child))], queue, cursor[d := cursor[d] + 1], log)
  {
    DiscoveredByReading(t, cursor, d);
    OthersKeepTheirs(views, w, View(Some(d), Some(t.items[d][cursor[d]].kind.id)));
  }

  /** A carried directory is put at the end of the queue. */
  lemma EnqueueMove(t: Tree, views: seq<View>, queue: seq<nat>, cursor: seq<nat>, log: seq<nat>, w: nat, child: nat)
    requires Ledger(t, views, queue, cursor, log) && w < |views| && views[w].carry == Some(child)
    ensures Ledger(t, views[w := View(views[w].scan, None)], queue + [child], cursor, log)
  {
    OthersKeepTheirs(views, w, View(views[w].scan, None));
  }

  /** A carried directory changes hands. */
  lemma PassMove(t: Tree, views: seq<View>, queue: seq<nat>, cursor: seq<nat>, log: seq<nat>, w: nat, r: nat,
    child: nat)
    requires Ledger(t, views, queue, cursor, log) && w < |views| && views[w].carry == Some(child)
    requires r < |views| && r != w && views[r] == View(None, None)
    ensures Ledger(t, views[w := View(views[w].scan, None)][r := View(None, Some(child))], queue, cursor, log)
  {
    OthersKeepTheirs(views, w, View(views[w].scan, None));
    OthersKeepTheirs(views[w := View(views[w].scan, None)], r, View(None, Some(child)));
  }

  /** A worker begins to read the directory it carries. */
  lemma BeginMove(t: Tree, views: seq<View>, queue: seq<nat>, cursor: seq<nat>, log: seq<nat>, w: nat, child: nat)
    requires Ledger(t, views, queue, cursor, log) && w < |views| && views[w] == View(None, Some(child))
    ensures Ledger(t, views[w := View(Some(child), None)], queue, cursor, log + [child])
  {
    OthersKeepTheirs(views, w, View(Some(child), None));
    assert Holds(views[w], child);
    forall i | 0 <= i < |queue| ensures queue[i] != child {
      assert !Holds(views[w], queue[i]);
    }
    forall u: nat | u < |views| && u != w ensures views[u].carry != Some(child) {
      assert !Holds(views[u], child);
    }
  }

  /** A worker that has read its directory to the end, or has none, takes up the first queued one. */
  lemma TakeMove(t: Tree, views: seq<View>, queue: seq<nat>, cursor: seq<nat>, log: seq<nat>, w: nat)
    requires Ledger(t, views, queue, cursor, log) && w < |views| && views[w].carry.None? && queue != []
    requires views[w].scan.Some? ==>
      views[w].scan.value < |t.items| && cursor[views[w].scan.value] == |t.items[views[w].scan.value]|
    ensures Ledger(t, views[w := View(Some(queue[0]), None)], queue[1..], cursor, log + [queue[0]])
  {
    OthersKeepTheirs(views, w, View(Some(queue[0]), None));
  }

  /** A worker that has read its directory to the end lets go of it. */
  lemma FinishMove(t: Tree, views: seq<View>, queue: seq<nat>, cursor: seq<nat>, log: seq<nat>, w: nat)
    requires Ledger(t, views, queue, cursor, log) && w < |views| && views[w].carry.None?
    requires views[w].scan.Some? ==>
      views[w].scan.value < |t.items| && cursor[views[w].scan.value] == |t.items[views[w].scan.value]|
    ensures Ledger(t, views[w := View(None, None)], queue, cursor, log)
  {
    OthersKeepTheirs(views, w, View(None, None));
  }
}
