/**
 The shape of the allocated frames: a forest with one tree per root, in which every frame is reached by
 exactly one path of digits from exactly one root, and what each primitive write does to it.
 */
module TableForest {
  import opened Machine
  import opened TableSpec

  /** The place of a frame: the root frame of its tree and the digits that lead to it. */
  datatype Node = Node(root: nat, path: seq<nat>)

  /** `word` is a valid entry that points at frame `child`. */
  predicate PointsTo(word: Word, child: nat) {
    word % 2 == 1 && word / 4096 == child
  }

  ghost predicate Shape(words: seq<Frame>, owner: seq<Node>) {
    && AllFrames(words)
    && |owner| == |words|
    && (forall f :: 0 <= f < |owner| ==> |owner[f].path| <= 4)
    && (forall f :: 0 <= f < |owner| && owner[f].path == [] ==> owner[f].root == f)
  }

  /** No two frames have the same place. */
  ghost predicate Unique(owner: seq<Node>) {
    forall f, g :: 0 <= f < |owner| && 0 <= g < |owner| && owner[f] == owner[g] ==> f == g
  }

  /** The place one digit below a node. */
  function Child(n: Node, digit: nat): Node {
    Node(n.root, n.path + [digit])
  }

  /** The interior entry (f, i), when valid, points at an allocated frame one digit further down. */
  ghost predicate EntryOk(words: seq<Frame>, owner: seq<Node>, f: nat, i: nat)
    requires Shape(words, owner) && f < |words| && i < ENTRIES
  {
    words[f][i] % 2 == 1 ==>
      words[f][i] / 4096 < |words| && owner[words[f][i] / 4096] == Child(owner[f], i)
  }

  ghost predicate EntriesOk(words: seq<Frame>, owner: seq<Node>)
    requires Shape(words, owner)
  {
    forall f, i {:trigger EntryOk(words, owner, f, i)} ::
      0 <= f < |words| && |owner[f].path| < 4 && 0 <= i < ENTRIES ==> EntryOk(words, owner, f, i)
  }

  /** Frame p holds the entry that points at frame f. */
  ghost predicate ParentOf(words: seq<Frame>, owner: seq<Node>, p: nat, f: nat)
    requires Shape(words, owner) && f < |words|
  {
    && p < |words|
    && |owner[f].path| > 0
    && var last := owner[f].path[|owner[f].path| - 1];
    && last < ENTRIES
    && owner[f] == Child(owner[p], last)
    && PointsTo(words[p][last], f)
  }

  ghost predicate HasParent(words: seq<Frame>, owner: seq<Node>, f: nat)
    requires Shape(words, owner) && f < |words|
  {
    exists p: nat :: ParentOf(words, owner, p, f)
  }

  /** Every frame that is not a root hangs below some frame. */
  ghost predicate Linked(words: seq<Frame>, owner: seq<Node>)
    requires Shape(words, owner)
  {
    forall f {:trigger HasParent(words, owner, f)} ::
      0 <= f < |words| && owner[f].path != [] ==> HasParent(words, owner, f)
  }

  ghost predicate Forest(words: seq<Frame>, owner: seq<Node>) {
    Shape(words, owner) && Unique(owner) && EntriesOk(words, owner) && Linked(words, owner)
  }

  ghost predicate IsRoot(owner: seq<Node>, pt: nat) {
    pt < |owner| && owner[pt] == Node(pt, [])
  }

  // ---------------------------------------------------------------- reachability

  /** The frame that a path of digits leads to, read off the words alone. */
  ghost function Descend(words: seq<Frame>, root: nat, path: seq<nat>): (r: int)
    requires AllFrames(words) && forall k :: 0 <= k < |path| ==> path[k] < ENTRIES
    ensures r < |words|
    decreases |path|
  {
    if path == [] then (if root < |words| then root else -1) else
    var f := Descend(words, root, path[..|path| - 1]);
    if f >= 0 && words[f][path[|path| - 1]] % 2 == 1 && words[f][path[|path| - 1]] / 4096 < |words|
    then words[f][path[|path| - 1]] / 4096 else -1
  }

  /** The path of a child is the path of its parent with one more digit. */
  lemma ParentPath(words: seq<Frame>, owner: seq<Node>, p: nat, f: nat)
    requires Shape(words, owner) && f < |words| && ParentOf(words, owner, p, f)
    ensures owner[p] == Node(owner[f].root, owner[f].path[..|owner[f].path| - 1])
    ensures |owner[p].path| < 4
  {
    var path := owner[f].path;
    assert path == owner[p].path + [path[|path| - 1]];
  }

  lemma {:induction false} PathLeadsToFrame(words: seq<Frame>, owner: seq<Node>, f: nat)
    requires Forest(words, owner) && f < |words|
    ensures forall k :: 0 <= k < |owner[f].path| ==> owner[f].path[k] < ENTRIES
    ensures Descend(words, owner[f].root, owner[f].path) == f
    decreases |owner[f].path|
  {
    if owner[f].path != [] {
      assert HasParent(words, owner, f);
      var p: nat :| ParentOf(words, owner, p, f);
      ParentPath(words, owner, p, f);
      PathLeadsToFrame(words, owner, p);
    }
  }

  lemma {:induction false} DescentEndsAtItsPlace(words: seq<Frame>, owner: seq<Node>, pt: nat, path: seq<nat>)
    requires Forest(words, owner) && IsRoot(owner, pt) && |path| <= 4
    requires forall k :: 0 <= k < |path| ==> path[k] < ENTRIES
    ensures var f := Descend(words, pt, path); f >= 0 ==> owner[f] == Node(pt, path)
    decreases |path|
  {
    if path != [] {
      var n := |path| - 1;
      DescentEndsAtItsPlace(words, owner, pt, path[..n]);
      var p := Descend(words, pt, path[..n]);
      assert path == path[..n] + [path[n]];
      if p >= 0 {
        assert EntryOk(words, owner, p, path[n]);
      }
    }
  }

  /** Following a path of at most four digits from a root lands on frame f exactly when f has that place. */
  lemma ReachedByOnePathOnly(words: seq<Frame>, owner: seq<Node>, pt: nat, path: seq<nat>, f: nat)
    requires Forest(words, owner) && IsRoot(owner, pt) && |path| <= 4 && f < |words|
    requires forall k :: 0 <= k < |path| ==> path[k] < ENTRIES
    ensures Descend(words, pt, path) == f <==> owner[f] == Node(pt, path)
  {
    PathLeadsToFrame(words, owner, f);
    DescentEndsAtItsPlace(words, owner, pt, path);
  }

  // ---------------------------------------------------------------- walks and queries

  /** A walk in a forest never faults; it stops on the entry its digits select. */
  lemma {:induction false} WalkStaysInForest(words: seq<Frame>, owner: seq<Node>, pt: nat, frame: nat, vpn: Word,
    level: nat)
    requires Forest(words, owner) && 1 <= level <= 5
    requires frame < |words| && owner[frame] == Node(pt, Digits(vpn)[..level - 1])
    ensures var s := WalkFrom(words, frame, vpn, level);
      && s.At?
      && owner[s.frame] == Node(pt, Digits(vpn)[..s.level - 2])
      && s.index == Digits(vpn)[s.level - 2]
    decreases 5 - level
  {
    var index := Digit(vpn, level);
    var entry := words[frame][index];
    if level < 5 && entry % 2 == 1 {
      assert EntryOk(words, owner, frame, index);
      assert Digits(vpn)[..level] == Digits(vpn)[..level - 1] + [index];
      WalkStaysInForest(words, owner, pt, entry / 4096, vpn, level + 1);
    }
  }

  /** Above every frame there is, at each depth, a frame whose entry on the path is valid. */
  lemma {:induction false} AncestorEntryValid(words: seq<Frame>, owner: seq<Node>, f: nat, k: nat) returns (g: nat)
    requires Forest(words, owner) && f < |words| && k < |owner[f].path|
    ensures g < |words| && owner[g] == Node(owner[f].root, owner[f].path[..k])
    ensures owner[f].path[k] < ENTRIES && words[g][owner[f].path[k]] % 2 == 1
    decreases |owner[f].path|
  {
    assert HasParent(words, owner, f);
    var p: nat :| ParentOf(words, owner, p, f);
    ParentPath(words, owner, p, f);
    if k == |owner[f].path| - 1 {
      g := p;
    } else {
      g := AncestorEntryValid(words, owner, p, k);
      assert owner[f].path[..|owner[f].path| - 1][..k] == owner[f].path[..k];
    }
  }

  /** The place of the last-level table that holds the entry of a page. */
  function LeafTable(pt: nat, vpn: Word): Node {
    Node(pt, Digits(vpn)[..4])
  }

  function Answer(entry: Word): Word {
    if entry % 2 == 1 then entry / 4096 else NO_MAPPING
  }

  lemma QueryWithLeafTable(words: seq<Frame>, owner: seq<Node>, pt: nat, vpn: Word, f: nat)
    requires Forest(words, owner) && IsRoot(owner, pt)
    requires f < |words| && owner[f] == LeafTable(pt, vpn)
    ensures Walk(words, pt, vpn) == At(f, Digit(vpn, 5), 6, words[f][Digit(vpn, 5)] % 2 == 1)
    ensures Query(words, pt, vpn) == Answer(words[f][Digit(vpn, 5)])
  {
    WalkStaysInForest(words, owner, pt, pt, vpn, 1);
    var s := Walk(words, pt, vpn);
    if s.level < 6 {
      var g := AncestorEntryValid(words, owner, f, s.level - 2);
      assert false;
    }
  }

  lemma QueryWithoutLeafTable(words: seq<Frame>, owner: seq<Node>, pt: nat, vpn: Word)
    requires Forest(words, owner) && IsRoot(owner, pt)
    requires forall f :: 0 <= f < |words| ==> owner[f] != LeafTable(pt, vpn)
    ensures Walk(words, pt, vpn).At? && Query(words, pt, vpn) == NO_MAPPING
  {
    WalkStaysInForest(words, owner, pt, pt, vpn, 1);
  }

  // ---------------------------------------------------------------- the two writes

  lemma LinkKeepsShape(words: seq<Frame>, owner: seq<Node>, f: nat, i: nat)
    requires Forest(words, owner) && f < |words| < NPAGES && i < ENTRIES
    requires |owner[f].path| < 4 && words[f][i] % 2 == 0
    ensures var w, o := Link(words, f, i), owner + [Child(owner[f], i)]; Shape(w, o) && Unique(o)
  {
    var added := Child(owner[f], i);
    if g: nat :| g < |owner| && owner[g] == added {
      assert HasParent(words, owner, g);
      var p: nat :| ParentOf(words, owner, p, g);
      ParentPath(words, owner, p, g);
      assert false;
    }
  }

  /** Linking a fresh zero-filled table below an invalid interior entry keeps the forest. */
  lemma LinkKeepsForest(words: seq<Frame>, owner: seq<Node>, f: nat, i: nat)
    requires Forest(words, owner) && f < |words| < NPAGES && i < ENTRIES
    requires |owner[f].path| < 4 && words[f][i] % 2 == 0
    ensures Forest(Link(words, f, i), owner + [Child(owner[f], i)])
  {
    LinkKeepsShape(words, owner, f, i);
    TagRoundTrip(|words|);
    var w, o := Link(words, f, i), owner + [Child(owner[f], i)];
    forall g: nat, j: nat | g < |w| && |o[g].path| < 4 && j < ENTRIES
      ensures EntryOk(w, o, g, j)
    {
      if g < |words| && !(g == f && j == i) {
        assert w[g][j] == words[g][j];
        assert EntryOk(words, owner, g, j);
      }
    }
    forall g: nat | g < |w| && o[g].path != []
      ensures HasParent(w, o, g)
    {
      if g < |words| {
        assert HasParent(words, owner, g);
        var p: nat :| ParentOf(words, owner, p, g);
        assert ParentOf(w, o, p, g);
      } else {
        assert ParentOf(w, o, f, g);
      }
    }
  }

  /** ... and no query of any root notices. */
  lemma LinkKeepsQueries(words: seq<Frame>, owner: seq<Node>, f: nat, i: nat, pt: nat, vpn: Word)
    requires Forest(words, owner) && f < |words| < NPAGES && i < ENTRIES
    requires |owner[f].path| < 4 && words[f][i] % 2 == 0
    requires IsRoot(owner, pt)
    ensures Walk(words, pt, vpn).At? && Walk(Link(words, f, i), pt, vpn).At?
    ensures Query(Link(words, f, i), pt, vpn) == Query(words, pt, vpn)
  {
    LinkKeepsForest(words, owner, f, i);
    var w, o := Link(words, f, i), owner + [Child(owner[f], i)];
    if g :| 0 <= g < |words| && owner[g] == LeafTable(pt, vpn) {
      QueryWithLeafTable(words, owner, pt, vpn, g);
      QueryWithLeafTable(w, o, pt, vpn, g);
    } else {
      QueryWithoutLeafTable(words, owner, pt, vpn);
      if o[|words|] == LeafTable(pt, vpn) {
        QueryWithLeafTable(w, o, pt, vpn, |words|);
      } else {
        QueryWithoutLeafTable(w, o, pt, vpn);
      }
    }
  }

  /** Writing any word into a last-level table keeps the forest. */
  lemma LeafWriteKeepsForest(words: seq<Frame>, owner: seq<Node>, f: nat, i: nat, word: Word)
    requires Forest(words, owner) && f < |words| && i < ENTRIES && |owner[f].path| == 4
    ensures Forest(Put(words, f, i, word), owner)
  {
    var w := Put(words, f, i, word);
    forall g: nat, j: nat | g < |w| && |owner[g].path| < 4 && j < ENTRIES
      ensures EntryOk(w, owner, g, j)
    {
      assert w[g][j] == words[g][j];
      assert EntryOk(words, owner, g, j);
    }
    forall g: nat | g < |w| && owner[g].path != []
      ensures HasParent(w, owner, g)
    {
      assert HasParent(words, owner, g);
      var p: nat :| ParentOf(words, owner, p, g);
      ParentPath(words, owner, p, g);
      assert ParentOf(w, owner, p, g);
    }
  }

  /** ... and changes the answer for exactly the pages that select that entry of that root. */
  lemma LeafWriteChangesOneAnswer(words: seq<Frame>, owner: seq<Node>, f: nat, i: nat, word: Word, pt: nat, vpn: Word)
    requires Forest(words, owner) && f < |words| && i < ENTRIES && |owner[f].path| == 4
    requires IsRoot(owner, pt)
    ensures Walk(words, pt, vpn).At? && Walk(Put(words, f, i, word), pt, vpn).At?
    ensures Query(Put(words, f, i, word), pt, vpn) ==
      if owner[f].root == pt && owner[f].path + [i] == Digits(vpn) then Answer(word) else Query(words, pt, vpn)
  {
    LeafWriteKeepsForest(words, owner, f, i, word);
    var w := Put(words, f, i, word);
    assert Digits(vpn) == Digits(vpn)[..4] + [Digit(vpn, 5)];
    if g :| 0 <= g < |words| && owner[g] == LeafTable(pt, vpn) {
      QueryWithLeafTable(words, owner, pt, vpn, g);
      QueryWithLeafTable(w, owner, pt, vpn, g);
      if owner[f].path + [i] == Digits(vpn) {
        assert (owner[f].path + [i])[..4] == owner[f].path;
      }
    } else {
      QueryWithoutLeafTable(words, owner, pt, vpn);
      QueryWithoutLeafTable(w, owner, pt, vpn);
      if owner[f].path + [i] == Digits(vpn) {
        assert (owner[f].path + [i])[..4] == owner[f].path;
      }
    }
  }
}
