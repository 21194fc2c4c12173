/**
 The page table over whole histories: updates refine a flat map from page numbers to page numbers,
 roots do not disturb each other, and the frames in use are counted exactly.
 */
module TableTraces {
  import opened Machine
  import opened TableSpec
  import opened TableForest

  predicate SamePage(v: Word, u: Word) {
    v % 0x2000_0000_0000 == u % 0x2000_0000_0000
  }

  /** Every root of `owner` answers every query on b as on a. */
  ghost predicate SameAnswers(a: seq<Frame>, b: seq<Frame>, owner: seq<Node>)
    requires AllFrames(a) && AllFrames(b)
  {
    forall pt: nat, vpn: Word :: IsRoot(owner, pt) ==>
      Walk(a, pt, vpn).At? && Walk(b, pt, vpn).At? && Query(b, pt, vpn) == Query(a, pt, vpn)
  }

  // ---------------------------------------------------------------- one update

  /** The tables that lie on the way to a page: one for each prefix of one to four of its digits. */
  function TablesFor(pt: nat, vpn: Word): set<Node> {
    {Node(pt, Digits(vpn)[..1]), Node(pt, Digits(vpn)[..2]), Node(pt, Digits(vpn)[..3]), Node(pt, Digits(vpn)[..4])}
  }

  /** The frames that a growing chain of tables adds are exactly the missing ones, in order. */
  ghost predicate Extends(owner: seq<Node>, owner': seq<Node>, pt: nat, vpn: Word, level: nat) {
    && owner <= owner'
    && |owner'| <= |owner| + 6 - level
    && forall f :: |owner| <= f < |owner'| ==>
      1 <= f - |owner| + level - 1 <= 4 && owner'[f] == Node(pt, Digits(vpn)[..f - |owner| + level - 1])
  }

  /** No answer changes by linking a table and then by changes that keep the answers. */
  lemma LinkAndSameAnswers(words: seq<Frame>, owner: seq<Node>, f: nat, i: nat, later: seq<Frame>)
    requires Forest(words, owner) && f < |words| < NPAGES && i < ENTRIES && |owner[f].path| < 4 && words[f][i] % 2 == 0
    requires AllFrames(later) && SameAnswers(Link(words, f, i), later, owner + [Child(owner[f], i)])
    ensures SameAnswers(words, later, owner)
  {
    forall r: nat, v: Word | IsRoot(owner, r)
      ensures Walk(words, r, v).At? && Walk(later, r, v).At? && Query(later, r, v) == Query(words, r, v)
    {
      assert IsRoot(owner + [Child(owner[f], i)], r);
      LinkKeepsQueries(words, owner, f, i, r, v);
    }
  }

  /** The entry (frame, index) is invalid and is the one that the digits of a page select below level - 1. */
  ghost predicate GrowsAt(words: seq<Frame>, owner: seq<Node>, pt: nat, frame: nat, index: nat, vpn: Word, level: nat) {
    && Forest(words, owner) && 2 <= level <= 6 && frame < |words| && IsRoot(owner, pt)
    && owner[frame] == Node(pt, Digits(vpn)[..level - 2]) && index == Digits(vpn)[level - 2]
    && (level < 6 ==> words[frame][index] % 2 == 0)
  }

  lemma ExtendsByOneMore(owner: seq<Node>, owner': seq<Node>, n: Node, pt: nat, vpn: Word, level: nat)
    requires 2 <= level < 6 && n == Node(pt, Digits(vpn)[..level - 1])
      && Extends(owner + [n], owner', pt, vpn, level + 1)
    ensures Extends(owner, owner', pt, vpn, level)
  {
    assert owner'[|owner|] == n;
  }

  lemma LinkGrowsAt(words: seq<Frame>, owner: seq<Node>, pt: nat, frame: nat, index: nat, vpn: Word, level: nat)
    requires GrowsAt(words, owner, pt, frame, index, vpn, level) && level < 6 && |words| < NPAGES
    ensures |owner[frame].path| < 4 && Child(owner[frame], index) == Node(pt, Digits(vpn)[..level - 1])
    ensures GrowsAt(Link(words, frame, index), owner + [Child(owner[frame], index)], pt, |words|, Digit(vpn, level),
      vpn, level + 1)
  {
    LinkKeepsForest(words, owner, frame, index);
    assert Digits(vpn)[..level - 1] == Digits(vpn)[..level - 2] + [index];
  }

  lemma {:induction false} GrowKeepsForest(words: seq<Frame>, owner: seq<Node>, pt: nat, frame: nat, index: nat,
    vpn: Word, level: nat)
    returns (owner': seq<Node>)
    requires GrowsAt(words, owner, pt, frame, index, vpn, level)
    ensures var g := Grow(words, frame, index, vpn, level);
      && Forest(g.words, owner')
      && SameAnswers(words, g.words, owner)
      && Extends(owner, owner', pt, vpn, level)
      && (g.Slot? <==> |words| + 6 - level <= NPAGES)
      && (g.Slot? ==>
        |g.words| == |words| + 6 - level && owner'[g.frame] == LeafTable(pt, vpn) && g.index == Digit(vpn, 5))
    decreases 6 - level
  {
    if level == 6 || |words| == NPAGES {
      owner' := owner;
      forall r: nat, v: Word | IsRoot(owner, r) ensures Walk(words, r, v).At? {
        WalkStaysInForest(words, owner, r, r, v, 1);
      }
    } else {
      var w, o := Link(words, frame, index), owner + [Child(owner[frame], index)];
      LinkGrowsAt(words, owner, pt, frame, index, vpn, level);
      owner' := GrowKeepsForest(w, o, pt, |words|, Digit(vpn, level), vpn, level + 1);
      LinkAndSameAnswers(words, owner, frame, index, Grow(w, |words|, Digit(vpn, level), vpn, level + 1).words);
      ExtendsByOneMore(owner, owner', Child(owner[frame], index), pt, vpn, level);
    }
  }

  /** The answer that an update asks for. */
  function Stored(ppn: Word): Word {
    if ppn == NO_MAPPING then NO_MAPPING else ppn % 0x10_0000_0000_0000
  }

  lemma {:induction false} SameDigitsSameWalk(words: seq<Frame>, frame: nat, v: Word, u: Word, level: nat)
    requires AllFrames(words) && 1 <= level <= 5 && Digits(v) == Digits(u)
    ensures WalkFrom(words, frame, v, level) == WalkFrom(words, frame, u, level)
    decreases 5 - level
  {
    assert Digits(v)[level - 1] == Digits(u)[level - 1];
    if level < 5 && frame < |words| {
      SameDigitsSameWalk(words, words[frame][Digit(v, level)] / 4096, v, u, level + 1);
    }
  }

  /** What an update does to the answer of every page of every root, and to nothing else. */
  ghost predicate AnswersAfter(words: seq<Frame>, words': seq<Frame>, owner: seq<Node>, pt: nat, vpn: Word, ppn: Word)
    requires AllFrames(words) && AllFrames(words')
  {
    forall r: nat, v: Word :: IsRoot(owner, r) ==>
      && Walk(words, r, v).At?
      && Walk(words', r, v).At?
      && Query(words', r, v) == if r == pt && SamePage(v, vpn) then Stored(ppn) else Query(words, r, v)
  }

  lemma WriteAnswers(words: seq<Frame>, grown: seq<Frame>, owner: seq<Node>, owner': seq<Node>, f: nat, pt: nat,
    vpn: Word, word: Word, ppn: Word)
    requires AllFrames(words) && Forest(grown, owner') && owner <= owner' && SameAnswers(words, grown, owner)
    requires f < |grown| && owner'[f] == LeafTable(pt, vpn) && Answer(word) == Stored(ppn)
    ensures Forest(Put(grown, f, Digit(vpn, 5), word), owner')
    ensures AnswersAfter(words, Put(grown, f, Digit(vpn, 5), word), owner, pt, vpn, ppn)
  {
    var i := Digit(vpn, 5);
    var w := Put(grown, f, i, word);
    LeafWriteKeepsForest(grown, owner', f, i, word);
    assert owner'[f].path + [i] == Digits(vpn);
    forall r: nat, v: Word | IsRoot(owner, r)
      ensures Walk(words, r, v).At? && Walk(w, r, v).At?
      ensures Query(w, r, v) == if r == pt && SamePage(v, vpn) then Stored(ppn) else Query(words, r, v)
    {
      assert IsRoot(owner', r);
      LeafWriteChangesOneAnswer(grown, owner', f, i, word, r, v);
      SameDigitsIffCongruent(v, vpn);
    }
  }

  /** Destroying: at most one leaf word changes, nothing is allocated, and the page is unmapped afterwards. */
  lemma DestroyRefinesRemoval(words: seq<Frame>, owner: seq<Node>, pt: nat, vpn: Word)
    requires Forest(words, owner) && IsRoot(owner, pt)
    ensures Walk(words, pt, vpn).At?
    ensures var o := Update(words, pt, vpn, NO_MAPPING);
      && o.Done?
      && Forest(o.words, owner)
      && AnswersAfter(words, o.words, owner, pt, vpn, NO_MAPPING)
      && (forall f, i {:trigger o.words[f][i]} ::
        0 <= f < |words| && 0 <= i < ENTRIES && o.words[f][i] != words[f][i] ==>
            owner[f] == LeafTable(pt, vpn) && i == Digit(vpn, 5) && o.words[f][i] == 0)
  {
    WalkStaysInForest(words, owner, pt, pt, vpn, 1);
    var s := Walk(words, pt, vpn);
    forall r: nat, v: Word | IsRoot(owner, r) ensures Walk(words, r, v).At? {
      WalkStaysInForest(words, owner, r, r, v, 1);
    }
    if s.valid {
      WriteAnswers(words, words, owner, owner, s.frame, pt, vpn, 0, NO_MAPPING);
    } else {
      forall v: Word | SamePage(v, vpn) ensures Query(words, pt, v) == NO_MAPPING {
        SameDigitsIffCongruent(v, vpn);
        SameDigitsSameWalk(words, pt, v, vpn, 1);
      }
    }
  }

  /**
   Mapping: it fails exactly when the missing tables do not fit in physical memory; otherwise it allocates
   5 - L frames, L being the level of the first invalid entry, and maps the page and nothing else.
   */
  lemma MapRefinesInsertion(words: seq<Frame>, owner: seq<Node>, pt: nat, vpn: Word, ppn: Word)
    returns (owner': seq<Node>)
    requires Forest(words, owner) && IsRoot(owner, pt) && ppn != NO_MAPPING
    ensures Walk(words, pt, vpn).At?
    ensures var level, o := Walk(words, pt, vpn).level, Update(words, pt, vpn, ppn);
      && Forest(o.words, owner')
      && Extends(owner, owner', pt, vpn, level)
      && (o.Done? <==> |words| + 6 - level <= 1048576)
      && (o.Done? ==> |o.words| == |words| + 6 - level && LeafTable(pt, vpn) in owner')
      && (o.Done? ==> AnswersAfter(words, o.words, owner, pt, vpn, ppn))
      && (o.OutOfMemory? ==> |o.words| == NPAGES && SameAnswers(words, o.words, owner))
  {
    WalkStaysInForest(words, owner, pt, pt, vpn, 1);
    var s := Walk(words, pt, vpn);
    owner' := GrowKeepsForest(words, owner, pt, s.frame, s.index, vpn, s.level);
    var g := Grow(words, s.frame, s.index, vpn, s.level);
    if g.Slot? {
      WriteAnswers(words, g.words, owner, owner', g.frame, pt, vpn, LeafEntry(ppn), ppn);
    } else {
      GrowFillsMemory(words, s.frame, s.index, vpn, s.level);
    }
  }

  lemma LeafWriteIsWalked(words: seq<Frame>, owner: seq<Node>, f: nat, pt: nat, vpn: Word, ppn: Word)
    requires Forest(words, owner) && f < |words| && owner[f] == LeafTable(pt, vpn) && IsRoot(owner, pt)
    ensures Walk(Put(words, f, Digit(vpn, 5), LeafEntry(ppn)), pt, vpn) == At(f, Digit(vpn, 5), 6, true)
  {
    LeafWriteKeepsForest(words, owner, f, Digit(vpn, 5), LeafEntry(ppn));
    QueryWithLeafTable(Put(words, f, Digit(vpn, 5), LeafEntry(ppn)), owner, pt, vpn, f);
  }

  /** The slot a mapping writes is the slot every later walk for that page stops on. */
  lemma MappedSlotIsWalked(words: seq<Frame>, owner: seq<Node>, pt: nat, vpn: Word, ppn: Word)
    requires Forest(words, owner) && IsRoot(owner, pt) && ppn != NO_MAPPING
    ensures Walk(words, pt, vpn).At?
    ensures var s := Walk(words, pt, vpn); var g := Grow(words, s.frame, s.index, vpn, s.level);
      g.Slot? ==> Walk(Update(words, pt, vpn, ppn).words, pt, vpn) == At(g.frame, g.index, 6, true)
  {
    WalkStaysInForest(words, owner, pt, pt, vpn, 1);
    var s := Walk(words, pt, vpn);
    var g := Grow(words, s.frame, s.index, vpn, s.level);
    if g.Slot? {
      var owner' := GrowKeepsForest(words, owner, pt, s.frame, s.index, vpn, s.level);
      LeafWriteIsWalked(g.words, owner', g.frame, pt, vpn, ppn);
    }
  }

  lemma {:induction false} GrowFillsMemory(words: seq<Frame>, frame: nat, index: nat, vpn: Word, level: nat)
    requires AllFrames(words) && frame < |words| && index < ENTRIES && 1 <= level <= 6
    ensures var g := Grow(words, frame, index, vpn, level); g.Full? ==> |g.words| == NPAGES
    decreases 6 - level
  {
    if level < 6 && |words| < NPAGES {
      GrowFillsMemory(Link(words, frame, index), |words|, Digit(vpn, level), vpn, level + 1);
    }
  }

  // ---------------------------------------------------------------- histories

  /** What the clients of the memory and of the page tables ask for. */
  datatype Call = AllocFrame | UpdateTable(pt: nat, vpn: Word, ppn: Word)

  /**
   A history so far: still running with these words and these frames handed to clients; stopped by
   memory exhaustion; a walk that left the allocated frames; or a client that passed a frame it was never given.
   */
  datatype Run = Running(words: seq<Frame>, clients: set<nat>) | Exited | Crashed | Misused

  function Step(s: Run, call: Call): (r: Run)
    requires s.Running? ==> AllFrames(s.words)
    ensures r.Running? ==> AllFrames(r.words)
  {
    if !s.Running? then s else
    match call
    case AllocFrame =>
      if |s.words| == NPAGES then Exited else Running(s.words + [ZeroFrame()], s.clients + {|s.words|})
    case UpdateTable(pt, vpn, ppn) =>
      if pt !in s.clients then Misused
      else if Walk(s.words, pt, vpn).Fault? then Crashed
      else
        match Update(s.words, pt, vpn, ppn)
        case Done(words) => Running(words, s.clients)
        case OutOfMemory(_) => Exited
  }

  function Execute(calls: seq<Call>): (r: Run)
    ensures r.Running? ==> AllFrames(r.words)
  {
    if calls == [] then Running([], {}) else Step(Execute(calls[..|calls| - 1]), calls[|calls| - 1])
  }

  /** The flat reference: what the last update of a page, through a root, stored there. */
  function LastStored(calls: seq<Call>, pt: nat, vpn: Word): Word {
    if calls == [] then NO_MAPPING else
    var last := calls[|calls| - 1];
    if last.UpdateTable? && last.pt == pt && SamePage(last.vpn, vpn) then Stored(last.ppn)
    else LastStored(calls[..|calls| - 1], pt, vpn)
  }

  /** The prefixes of one to four digits, per root, of all the pages ever mapped. */
  function TablesNeeded(calls: seq<Call>): set<Node> {
    if calls == [] then {} else
    var last := calls[|calls| - 1];
    TablesNeeded(calls[..|calls| - 1]) +
      if last.UpdateTable? && last.ppn != NO_MAPPING then TablesFor(last.pt, last.vpn) else {}
  }

  function ClientFrames(calls: seq<Call>): nat {
    if calls == [] then 0 else
    ClientFrames(calls[..|calls| - 1]) + if calls[|calls| - 1].AllocFrame? then 1 else 0
  }

  function NodesOf(owner: seq<Node>): set<Node> {
    if owner == [] then {} else NodesOf(owner[..|owner| - 1]) + {owner[|owner| - 1]}
  }

  lemma {:induction false} InNodesOf(owner: seq<Node>, n: Node)
    ensures n in NodesOf(owner) <==> n in owner
  {
    if owner != [] {
      InNodesOf(owner[..|owner| - 1], n);
      assert owner == owner[..|owner| - 1] + [owner[|owner| - 1]];
    }
  }

  lemma {:induction false} UniqueNodesCounted(owner: seq<Node>)
    requires Unique(owner)
    ensures |NodesOf(owner)| == |owner|
  {
    if owner != [] {
      var n := |owner| - 1;
      UniqueNodesCounted(owner[..n]);
      InNodesOf(owner[..n], owner[n]);
    }
  }

  /** The frames of a history are the clients' frames and the tables its mappings need, one frame for each. */
  ghost predicate Accounted(s: Run, calls: seq<Call>, owner: seq<Node>) {
    && s.Running?
    && |s.clients| == ClientFrames(calls)
    && (forall r :: r in s.clients <==> 0 <= r && IsRoot(owner, r))
    && (forall n :: n in owner <==> (n.path == [] && n.root in s.clients) || n in TablesNeeded(calls))
    && (forall n :: n in TablesNeeded(calls) ==> n.path != [])
  }

  ghost predicate Refines(s: Run, calls: seq<Call>, owner: seq<Node>) {
    && s.Running?
    && Forest(s.words, owner)
    && forall pt: nat, vpn: Word :: pt in s.clients ==>
      Walk(s.words, pt, vpn).At? && Query(s.words, pt, vpn) == LastStored(calls, pt, vpn)
  }

  lemma AllocKeepsShape(words: seq<Frame>, owner: seq<Node>)
    requires Forest(words, owner) && |words| < NPAGES
    ensures Shape(words + [ZeroFrame()], owner + [Node(|words|, [])]) && Unique(owner + [Node(|words|, [])])
  {
    RootsAreAllocated(words, owner);
  }

  /** A fresh frame is an empty root; */
  lemma AllocKeepsForest(words: seq<Frame>, owner: seq<Node>)
    requires Forest(words, owner) && |words| < NPAGES
    ensures Forest(words + [ZeroFrame()], owner + [Node(|words|, [])])
  {
    var w, o := words + [ZeroFrame()], owner + [Node(|words|, [])];
    AllocKeepsShape(words, owner);
    forall g: nat, j: nat | g < |w| && |o[g].path| < 4 && j < ENTRIES
      ensures EntryOk(w, o, g, j)
    {
      if g < |words| {
        assert EntryOk(words, owner, g, j);
      }
    }
    forall g: nat | g < |w| && o[g].path != []
      ensures HasParent(w, o, g)
    {
      assert HasParent(words, owner, g);
      var p: nat :| ParentOf(words, owner, p, g);
      assert ParentOf(w, o, p, g);
    }
  }

  /** nothing is mapped through it, and the other roots answer as before. */
  lemma AllocAnswers(words: seq<Frame>, owner: seq<Node>, pt: nat, vpn: Word)
    requires Forest(words, owner) && |words| < NPAGES
    requires IsRoot(owner, pt) || pt == |words|
    ensures pt < |words| ==> Walk(words, pt, vpn).At?
    ensures Walk(words + [ZeroFrame()], pt, vpn).At?
    ensures Query(words + [ZeroFrame()], pt, vpn) == if pt == |words| then NO_MAPPING else Query(words, pt, vpn)
  {
    var w, o := words + [ZeroFrame()], owner + [Node(|words|, [])];
    AllocKeepsForest(words, owner);
    RootsAreAllocated(words, owner);
    assert IsRoot(o, pt);
    if g: nat :| g < |words| && owner[g] == LeafTable(pt, vpn) {
      QueryWithLeafTable(words, owner, pt, vpn, g);
      QueryWithLeafTable(w, o, pt, vpn, g);
    } else {
      QueryWithoutLeafTable(w, o, pt, vpn);
      if pt < |words| {
        QueryWithoutLeafTable(words, owner, pt, vpn);
      }
    }
  }

  /** No frame belongs to a root that was not allocated. */
  lemma RootsAreAllocated(words: seq<Frame>, owner: seq<Node>)
    requires Forest(words, owner)
    ensures forall f :: 0 <= f < |words| ==> owner[f].root < |words|
  {
    forall f: nat | f < |words| ensures owner[f].root < |words| {
      PathLeadsToFrame(words, owner, f);
      DescentStartsAllocated(words, owner[f].root, owner[f].path);
    }
  }

  lemma {:induction false} DescentStartsAllocated(words: seq<Frame>, root: nat, path: seq<nat>)
    requires AllFrames(words) && (forall k :: 0 <= k < |path| ==> path[k] < ENTRIES)
    ensures Descend(words, root, path) >= 0 ==> root < |words|
    decreases |path|
  {
    if path != [] {
      DescentStartsAllocated(words, root, path[..|path| - 1]);
    }
  }

  /** After a mapping, the tables on the way to the page are in place, and no other tables were added. */
  lemma TablesAddedForMapping(words: seq<Frame>, owner: seq<Node>, owner': seq<Node>, pt: nat, vpn: Word, level: nat)
    requires Forest(words, owner') && Extends(owner, owner', pt, vpn, level) && 2 <= level <= 6
    requires LeafTable(pt, vpn) in owner'
    ensures forall n :: n in owner' <==> n in owner || n in TablesFor(pt, vpn)
  {
    var f: nat :| f < |owner'| && owner'[f] == LeafTable(pt, vpn);
    forall k: nat | 1 <= k < 4 ensures Node(pt, Digits(vpn)[..k]) in owner' {
      var g := AncestorEntryValid(words, owner', f, k);
      assert Digits(vpn)[..4][..k] == Digits(vpn)[..k];
    }
    forall n | n in owner' ensures n in owner || n in TablesFor(pt, vpn) {
      var g :| 0 <= g < |owner'| && owner'[g] == n;
      if g < |owner| {
        assert owner[g] == n;
      } else {
        var k := g - |owner| + level - 1;
        assert n == Node(pt, Digits(vpn)[..k]);
        assert k == 1 || k == 2 || k == 3 || k == 4;
      }
    }
  }

  lemma MapStepAccounted(s: Run, s': Run, calls: seq<Call>, owner: seq<Node>, owner': seq<Node>, last: Call, level: nat)
    requires Accounted(s, calls, owner) && s'.Running? && s'.clients == s.clients && Forest(s'.words, owner')
    requires last.UpdateTable? && last.pt in s.clients && last.ppn != NO_MAPPING && 2 <= level <= 6
    requires Extends(owner, owner', last.pt, last.vpn, level) && LeafTable(last.pt, last.vpn) in owner'
    ensures Accounted(s', calls + [last], owner')
  {
    assert ClientFrames(calls + [last]) == ClientFrames(calls) by { assert (calls + [last])[..|calls|] == calls; }
    var needed := TablesNeeded(calls) + TablesFor(last.pt, last.vpn);
    assert TablesNeeded(calls + [last]) == needed by { assert (calls + [last])[..|calls|] == calls; }
    assert forall n :: n in owner' <==> (n.path == [] && n.root in s.clients) || n in needed by {
      TablesAddedForMapping(s'.words, owner, owner', last.pt, last.vpn, level);
    }
    ExtendingKeepsRoots(owner, owner', last.pt, last.vpn, level);
  }

  lemma ExtendingKeepsRoots(owner: seq<Node>, owner': seq<Node>, pt: nat, vpn: Word, level: nat)
    requires Extends(owner, owner', pt, vpn, level) && 2 <= level <= 6
    ensures forall r: nat :: IsRoot(owner', r) <==> IsRoot(owner, r)
  {
    forall r: nat ensures IsRoot(owner', r) <==> IsRoot(owner, r) {
      if r < |owner| {
        assert owner'[r] == owner[r];
      }
    }
  }

  lemma MapStepKeepsAll(s: Run, calls: seq<Call>, owner: seq<Node>, pt: nat, vpn: Word, ppn: Word)
    returns (owner': seq<Node>)
    requires Refines(s, calls, owner) && Accounted(s, calls, owner) && pt in s.clients && ppn != NO_MAPPING
    ensures Walk(s.words, pt, vpn).At?
    ensures var last := UpdateTable(pt, vpn, ppn);
      Step(s, last).Running? ==>
        Refines(Step(s, last), calls + [last], owner') && Accounted(Step(s, last), calls + [last], owner')
  {
    var last := UpdateTable(pt, vpn, ppn);
    owner' := MapRefinesInsertion(s.words, owner, pt, vpn, ppn);
    var s' := Step(s, last);
    if s'.Running? {
      MapStepAccounted(s, s', calls, owner, owner', last, Walk(s.words, pt, vpn).level);
      assert (calls + [last])[..|calls|] == calls;
      forall r: nat, v: Word | r in s.clients
        ensures Walk(s'.words, r, v).At? && Query(s'.words, r, v) == LastStored(calls + [last], r, v)
      {
        assert IsRoot(owner, r);
      }
    }
  }

  lemma DestroyStepKeepsAll(s: Run, calls: seq<Call>, owner: seq<Node>, pt: nat, vpn: Word)
    requires Refines(s, calls, owner) && Accounted(s, calls, owner) && pt in s.clients
    ensures Walk(s.words, pt, vpn).At?
    ensures var last := UpdateTable(pt, vpn, NO_MAPPING);
      Refines(Step(s, last), calls + [last], owner) && Accounted(Step(s, last), calls + [last], owner)
  {
    var last := UpdateTable(pt, vpn, NO_MAPPING);
    DestroyRefinesRemoval(s.words, owner, pt, vpn);
    assert (calls + [last])[..|calls|] == calls;
    var words' := Step(s, last).words;
    forall r: nat, v: Word | r in s.clients
      ensures Walk(words', r, v).At? && Query(words', r, v) == LastStored(calls + [last], r, v)
    {
      assert IsRoot(owner, r);
    }
  }

  lemma AllocAddsOneRoot(words: seq<Frame>, owner: seq<Node>, r: int)
    requires Forest(words, owner)
    ensures (0 <= r && IsRoot(owner + [Node(|words|, [])], r)) <==> (0 <= r && IsRoot(owner, r)) || r == |words|
  {
    assert r == |words| ==> (owner + [Node(|words|, [])])[r] == Node(|words|, []);
  }

  lemma AllocStepAccounted(s: Run, calls: seq<Call>, owner: seq<Node>)
    requires s.Running? && Forest(s.words, owner) && Accounted(s, calls, owner) && |s.words| < NPAGES
    ensures Accounted(Step(s, AllocFrame), calls + [AllocFrame], owner + [Node(|s.words|, [])])
  {
    var n := |s.words|;
    var owner' := owner + [Node(n, [])];
    AllocHistory(calls);
    assert n !in s.clients by { assert !IsRoot(owner, n); }
    forall r ensures r in s.clients + {n} <==> 0 <= r && IsRoot(owner', r) {
      AllocAddsOneRoot(s.words, owner, r);
    }
    forall p ensures p in owner' <==> (p.path == [] && p.root in s.clients + {n}) || p in TablesNeeded(calls) {
      assert p in owner' <==> p in owner || p == Node(n, []);
    }
  }

  lemma AllocHistory(calls: seq<Call>)
    ensures ClientFrames(calls + [AllocFrame]) == ClientFrames(calls) + 1
    ensures TablesNeeded(calls + [AllocFrame]) == TablesNeeded(calls)
  {
    assert (calls + [AllocFrame])[..|calls|] == calls;
  }

  lemma AllocStepRefines(s: Run, calls: seq<Call>, owner: seq<Node>)
    requires Refines(s, calls, owner) && (forall r :: r in s.clients <==> 0 <= r && IsRoot(owner, r))
      && |s.words| < NPAGES
    requires forall r: nat, v: Word :: r !in s.clients ==> LastStored(calls, r, v) == NO_MAPPING
    ensures Refines(Step(s, AllocFrame), calls + [AllocFrame], owner + [Node(|s.words|, [])])
  {
    var s' := Step(s, AllocFrame);
    AllocKeepsForest(s.words, owner);
    assert (calls + [AllocFrame])[..|calls|] == calls;
    assert |s.words| !in s.clients by { assert !IsRoot(owner, |s.words|); }
    forall r: nat, v: Word | r in s'.clients
      ensures Walk(s'.words, r, v).At? && Query(s'.words, r, v) == LastStored(calls + [AllocFrame], r, v)
    {
      assert r in s.clients ==> IsRoot(owner, r);
      AllocAnswers(s.words, owner, r, v);
    }
  }

  /** Only a frame handed to a client before is ever updated. */
  lemma {:induction false} UpdatedRootsAreClients(calls: seq<Call>, pt: nat, vpn: Word)
    requires Execute(calls).Running? && pt !in Execute(calls).clients
    ensures LastStored(calls, pt, vpn) == NO_MAPPING
  {
    if calls != [] {
      UpdatedRootsAreClients(calls[..|calls| - 1], pt, vpn);
    }
  }

  lemma StepKeepsAll(s: Run, calls: seq<Call>, owner: seq<Node>, last: Call) returns (owner': seq<Node>)
    requires Refines(s, calls, owner) && Accounted(s, calls, owner) && Step(s, last).Running?
    requires forall r: nat, v: Word :: r !in s.clients ==> LastStored(calls, r, v) == NO_MAPPING
    ensures Refines(Step(s, last), calls + [last], owner') && Accounted(Step(s, last), calls + [last], owner')
  {
    match last
    case AllocFrame =>
      owner' := owner + [Node(|s.words|, [])];
      AllocStepAccounted(s, calls, owner);
      AllocStepRefines(s, calls, owner);
    case UpdateTable(pt, vpn, ppn) =>
      if ppn == NO_MAPPING {
        DestroyStepKeepsAll(s, calls, owner, pt, vpn);
        owner' := owner;
      } else {
        owner' := MapStepKeepsAll(s, calls, owner, pt, vpn, ppn);
      }
  }

  /** The invariant of all histories, with the forest that exists after one. */
  lemma {:induction false} HistoryInvariant(calls: seq<Call>) returns (owner: seq<Node>)
    requires Execute(calls).Running?
    ensures Refines(Execute(calls), calls, owner) && Accounted(Execute(calls), calls, owner)
  {
    if calls == [] {
      owner := [];
    } else {
      var init, last := calls[..|calls| - 1], calls[|calls| - 1];
      assert calls == init + [last];
      owner := HistoryInvariant(init);
      forall r: nat, v: Word | r !in Execute(init).clients ensures LastStored(init, r, v) == NO_MAPPING {
        UpdatedRootsAreClients(init, r, v);
      }
      owner := StepKeepsAll(Execute(init), init, owner, last);
    }
  }

  // ---------------------------------------------------------------- main results

  /** A query answers what the last update of a congruent page through the same root stored. */
  lemma QueryAnswersLastUpdate(calls: seq<Call>, pt: nat, vpn: Word)
    requires Execute(calls).Running? && pt in Execute(calls).clients
    ensures Walk(Execute(calls).words, pt, vpn).At?
    ensures Query(Execute(calls).words, pt, vpn) == LastStored(calls, pt, vpn)
  {
    var owner := HistoryInvariant(calls);
  }

  lemma UpdatedPage(calls: seq<Call>, pt: nat, vpn: Word, ppn: Word)
    requires Execute(calls + [UpdateTable(pt, vpn, ppn)]).Running?
    ensures pt in Execute(calls + [UpdateTable(pt, vpn, ppn)]).clients
    ensures LastStored(calls + [UpdateTable(pt, vpn, ppn)], pt, vpn) == Stored(ppn)
  {
    assert (calls + [UpdateTable(pt, vpn, ppn)])[..|calls|] == calls;
  }

  lemma StoredFits(ppn: Word)
    ensures Stored(ppn) == ppn <==> ppn < 0x10_0000_0000_0000 || ppn == NO_MAPPING
  {
  }

  /**
   After an update a query gives the page number back exactly when 52 bits hold it, or when it stands for no mapping.
   */
  lemma QueryReturnsWhatFits(calls: seq<Call>, pt: nat, vpn: Word, ppn: Word)
    requires Execute(calls + [UpdateTable(pt, vpn, ppn)]).Running?
    ensures var s := Execute(calls + [UpdateTable(pt, vpn, ppn)]);
      Walk(s.words, pt, vpn).At? && (Query(s.words, pt, vpn) == ppn <==> ppn < 0x10_0000_0000_0000 || ppn == NO_MAPPING)
  {
    UpdatedPage(calls, pt, vpn, ppn);
    QueryAnswersLastUpdate(calls + [UpdateTable(pt, vpn, ppn)], pt, vpn);
    StoredFits(ppn);
  }

  /** No walk of any history leaves the allocated frames. */
  lemma {:induction false} NoWalkFaults(calls: seq<Call>)
    ensures !Execute(calls).Crashed?
  {
    if calls != [] {
      var init, last := calls[..|calls| - 1], calls[|calls| - 1];
      NoWalkFaults(init);
      if Execute(init).Running? && last.UpdateTable? && last.pt in Execute(init).clients {
        QueryAnswersLastUpdate(init, last.pt, last.vpn);
      }
    }
  }

  /** The frames in use: one per client allocation and one per distinct prefix, per root, of a page ever mapped. */
  lemma FramesInUse(calls: seq<Call>)
    requires Execute(calls).Running?
    ensures |Execute(calls).words| == ClientFrames(calls) + |TablesNeeded(calls)|
  {
    var owner := HistoryInvariant(calls);
    CountPlaces(Execute(calls).clients, TablesNeeded(calls), owner);
  }

  lemma CountPlaces(clients: set<nat>, tables: set<Node>, owner: seq<Node>)
    requires Unique(owner) && forall n :: n in tables ==> n.path != []
    requires forall n :: n in owner <==> (n.path == [] && n.root in clients) || n in tables
    ensures |owner| == |clients| + |tables|
  {
    var roots := set r | r in clients :: Node(r, []);
    RootsCounted(clients);
    UniqueNodesCounted(owner);
    forall n ensures n in NodesOf(owner) <==> n in roots + tables {
      InNodesOf(owner, n);
      assert n in roots <==> n.path == [] && n.root in clients;
    }
    assert NodesOf(owner) == roots + tables;
    assert roots !! tables;
  }

  lemma {:induction false} RootsCounted(clients: set<nat>)
    ensures |set r | r in clients :: Node(r, [])| == |clients|
  {
    if clients != {} {
      var c :| c in clients;
      RootsCounted(clients - {c});
      assert (set r | r in clients :: Node(r, [])) == (set r | r in clients - {c} :: Node(r, [])) + {Node(c, [])};
    }
  }

  ghost predicate IsPath(path: seq<nat>) {
    |path| <= 4 && forall k :: 0 <= k < |path| ==> path[k] < ENTRIES
  }

  /** Of all clients' roots and all paths of at most four digits, this root and this path alone lead to frame f. */
  ghost predicate OnlyWayTo(words: seq<Frame>, clients: set<nat>, f: nat, way: Node)
    requires AllFrames(words)
  {
    && way.root in clients && IsPath(way.path)
    && forall root: nat, path: seq<nat> :: root in clients && IsPath(path) ==>
         (Descend(words, root, path) == f <==> Node(root, path) == way)
  }

  /** Every frame in use is reached from exactly one root by exactly one path of at most four digits. */
  lemma EveryFrameHasOnePath(calls: seq<Call>, f: nat)
    requires Execute(calls).Running? && f < |Execute(calls).words|
    ensures exists way: Node :: OnlyWayTo(Execute(calls).words, Execute(calls).clients, f, way)
  {
    var owner := HistoryInvariant(calls);
    var s := Execute(calls);
    PathLeadsToFrame(s.words, owner, f);
    RootOfPath(s.words, owner, f);
    forall root: nat, path: seq<nat> | root in s.clients && IsPath(path)
      ensures Descend(s.words, root, path) == f <==> Node(root, path) == owner[f]
    {
      assert IsRoot(owner, root);
      ReachedByOnePathOnly(s.words, owner, root, path, f);
    }
    assert OnlyWayTo(s.words, s.clients, f, owner[f]);
  }

  lemma {:induction false} RootOfPath(words: seq<Frame>, owner: seq<Node>, f: nat)
    requires Forest(words, owner) && f < |words|
    ensures IsRoot(owner, owner[f].root)
    decreases |owner[f].path|
  {
    if owner[f].path != [] {
      assert HasParent(words, owner, f);
      var p: nat :| ParentOf(words, owner, p, f);
      ParentPath(words, owner, p, f);
      RootOfPath(words, owner, p);
    }
  }
}
