/** What clients of the page tables see over whole histories, in numbers: answers, entries, and when memory runs out. */
module TableHistories {
  import opened Machine
  import opened TableSpec
  import opened TableForest
  import opened TableTraces

  // ---------------------------------------------------------------- what a query answers

  /** The call updates, through root pt, a page that agrees with vpn in the low 45 bits. */
  predicate Updates(call: Call, pt: nat, vpn: Word) {
    call.UpdateTable? && call.pt == pt && call.vpn % 0x2000_0000_0000 == vpn % 0x2000_0000_0000
  }

  /** Call k is the last that updates the page. */
  predicate LastUpdate(calls: seq<Call>, pt: nat, vpn: Word, k: nat) {
    k < |calls| && Updates(calls[k], pt, vpn) && forall j :: k < j < |calls| ==> !Updates(calls[j], pt, vpn)
  }

  predicate NeverUpdated(calls: seq<Call>, pt: nat, vpn: Word) {
    forall k :: 0 <= k < |calls| ==> !Updates(calls[k], pt, vpn)
  }

  /** The history holds a last update of the page, or none. */
  lemma {:induction false} LastUpdateOrNone(calls: seq<Call>, pt: nat, vpn: Word)
    ensures NeverUpdated(calls, pt, vpn) || exists k: nat :: LastUpdate(calls, pt, vpn, k)
  {
    if calls != [] {
      var n := |calls| - 1;
      LastUpdateOrNone(calls[..n], pt, vpn);
      if Updates(calls[n], pt, vpn) {
        assert LastUpdate(calls, pt, vpn, n);
      } else if k: nat :| LastUpdate(calls[..n], pt, vpn, k) {
        assert LastUpdate(calls, pt, vpn, k);
      }
    }
  }

  lemma {:induction false} NothingStored(calls: seq<Call>, pt: nat, vpn: Word)
    requires NeverUpdated(calls, pt, vpn)
    ensures LastStored(calls, pt, vpn) == 0xFFFF_FFFF_FFFF_FFFF
  {
    if calls != [] {
      assert !Updates(calls[|calls| - 1], pt, vpn);
      NothingStored(calls[..|calls| - 1], pt, vpn);
    }
  }

  lemma {:induction false} StoredByLastUpdate(calls: seq<Call>, pt: nat, vpn: Word, k: nat)
    requires LastUpdate(calls, pt, vpn, k)
    ensures LastStored(calls, pt, vpn) == Stored(calls[k].ppn)
  {
    var n := |calls| - 1;
    if k < n {
      assert !Updates(calls[n], pt, vpn);
      StoredByLastUpdate(calls[..n], pt, vpn, k);
    }
  }

  /**
   A page that was never updated through a root, or whose last update passed ~0, is answered with ~0, and no other
   page is; what the last update passed is answered with its low 52 bits.
   */
  lemma QueryOverHistory(calls: seq<Call>, pt: nat, vpn: Word)
    requires Execute(calls).Running? && pt in Execute(calls).clients
    ensures Walk(Execute(calls).words, pt, vpn).At?
    ensures Query(Execute(calls).words, pt, vpn) == 0xFFFF_FFFF_FFFF_FFFF <==>
      || NeverUpdated(calls, pt, vpn)
      || exists k: nat :: LastUpdate(calls, pt, vpn, k) && calls[k].ppn == 0xFFFF_FFFF_FFFF_FFFF
    ensures forall k: nat :: LastUpdate(calls, pt, vpn, k) && calls[k].ppn != 0xFFFF_FFFF_FFFF_FFFF ==>
      Query(Execute(calls).words, pt, vpn) == calls[k].ppn % 0x10_0000_0000_0000
  {
    QueryAnswersLastUpdate(calls, pt, vpn);
    LastUpdateOrNone(calls, pt, vpn);
    if NeverUpdated(calls, pt, vpn) {
      NothingStored(calls, pt, vpn);
    }
    forall k: nat | LastUpdate(calls, pt, vpn, k) ensures LastStored(calls, pt, vpn) == Stored(calls[k].ppn) {
      StoredByLastUpdate(calls, pt, vpn, k);
    }
  }

  // ---------------------------------------------------------------- what an entry holds

  /** Every word is zero or a page number above a 1 and eleven zero bits. */
  ghost predicate Tagged(words: seq<Frame>)
    requires AllFrames(words)
  {
    forall f, i {:trigger words[f][i]} :: 0 <= f < |words| && 0 <= i < 512 ==>
      words[f][i] == 0 || words[f][i] % 4096 == 1
  }

  lemma PutKeepsTags(words: seq<Frame>, frame: nat, index: nat, w: Word)
    requires AllFrames(words) && Tagged(words) && frame < |words| && index < 512 && (w == 0 || w % 4096 == 1)
    ensures Tagged(Put(words, frame, index, w))
  {
  }

  lemma AllocKeepsTags(words: seq<Frame>)
    requires AllFrames(words) && |words| < NPAGES && Tagged(words)
    ensures Tagged(words + [ZeroFrame()])
  {
  }

  lemma {:induction false} GrowKeepsTags(words: seq<Frame>, frame: nat, index: nat, vpn: Word, level: nat)
    requires AllFrames(words) && Tagged(words) && frame < |words| && index < ENTRIES && 1 <= level <= 6
    ensures Tagged(Grow(words, frame, index, vpn, level).words)
    decreases 6 - level
  {
    if level < 6 && |words| < NPAGES {
      AllocKeepsTags(words);
      PutKeepsTags(words + [ZeroFrame()], frame, index, 4096 * |words| + 1);
      GrowKeepsTags(Link(words, frame, index), |words|, Digit(vpn, level), vpn, level + 1);
    }
  }

  lemma UpdateKeepsTags(words: seq<Frame>, pt: nat, vpn: Word, ppn: Word)
    requires AllFrames(words) && Tagged(words) && Walk(words, pt, vpn).At?
    ensures Tagged(Update(words, pt, vpn, ppn).words)
  {
    var s := Walk(words, pt, vpn);
    if ppn == NO_MAPPING {
      PutKeepsTags(words, s.frame, s.index, 0);
    } else {
      GrowKeepsTags(words, s.frame, s.index, vpn, s.level);
      var g := Grow(words, s.frame, s.index, vpn, s.level);
      if g.Slot? {
        PutKeepsTags(g.words, g.frame, g.index, LeafEntry(ppn));
      }
    }
  }

  /** In every history every word of every frame is zero, or its low twelve bits are those of the number 1. */
  lemma {:induction false} WordsAreTagged(calls: seq<Call>)
    requires Execute(calls).Running?
    ensures Tagged(Execute(calls).words)
  {
    if calls != [] {
      var init, last := calls[..|calls| - 1], calls[|calls| - 1];
      WordsAreTagged(init);
      var words := Execute(init).words;
      match last
      case AllocFrame => AllocKeepsTags(words);
      case UpdateTable(pt, vpn, ppn) => UpdateKeepsTags(words, pt, vpn, ppn);
    }
  }

  /**
   After an update with a page number of 52 bits the walk ends on a valid last-level entry that holds the number
   above a 1, and a query gives it back; after an update with ~0 the walk ends on an invalid entry.
   */
  lemma UpdatedEntry(calls: seq<Call>, pt: nat, vpn: Word, ppn: Word)
    requires Execute(calls + [UpdateTable(pt, vpn, ppn)]).Running?
    ensures var words := Execute(calls + [UpdateTable(pt, vpn, ppn)]).words; var s := Walk(words, pt, vpn);
      && s.At?
      && (ppn < 0x10_0000_0000_0000 ==>
        s.level == 6 && s.valid && words[s.frame][s.index] == 4096 * ppn + 1 && Query(words, pt, vpn) == ppn)
      && (ppn == 0xFFFF_FFFF_FFFF_FFFF ==> !s.valid && Query(words, pt, vpn) == 0xFFFF_FFFF_FFFF_FFFF)
  {
    var after := calls + [UpdateTable(pt, vpn, ppn)];
    var words := Execute(after).words;
    QueryReturnsWhatFits(calls, pt, vpn, ppn);
    WordsAreTagged(after);
    EntryOfAnswer(words, pt, vpn);
  }

  /** The answer of a query tells the word on which its walk ends. */
  lemma EntryOfAnswer(words: seq<Frame>, pt: nat, vpn: Word)
    requires AllFrames(words) && Tagged(words) && Walk(words, pt, vpn).At?
    ensures var s, answer := Walk(words, pt, vpn), Query(words, pt, vpn);
      if answer == 0xFFFF_FFFF_FFFF_FFFF then !s.valid
      else s.level == 6 && s.valid && words[s.frame][s.index] == 4096 * answer + 1
  {
    var s := Walk(words, pt, vpn);
    WordParts(words[s.frame][s.index]);
  }

  lemma WordParts(w: Word)
    ensures w == 4096 * (w / 4096) + w % 4096 && w / 4096 < 0x10_0000_0000_0000
  {
  }

  // ---------------------------------------------------------------- when memory runs out

  /** The frames that a history needs: one per client allocation, and one per distinct prefix of a page ever mapped. */
  function FramesNeeded(calls: seq<Call>): nat {
    ClientFrames(calls) + |TablesNeeded(calls)|
  }

  /** The tables on the way to a page from its L-th digit on. */
  function TablesFrom(pt: nat, vpn: Word, level: nat): set<Node>
    requires 2 <= level <= 6
  {
    set k | level - 1 <= k <= 4 :: Node(pt, Digits(vpn)[..k])
  }

  lemma {:induction false} TablesFromCounted(pt: nat, vpn: Word, level: nat)
    requires 2 <= level <= 6
    ensures |TablesFrom(pt, vpn, level)| == 6 - level
    decreases 6 - level
  {
    if level == 6 {
      assert TablesFrom(pt, vpn, level) == {};
    } else {
      TablesFromCounted(pt, vpn, level + 1);
      var first, rest := Node(pt, Digits(vpn)[..level - 1]), TablesFrom(pt, vpn, level + 1);
      forall n | n in rest ensures n != first {
        assert |n.path| > |first.path|;
      }
      assert TablesFrom(pt, vpn, level) == {first} + rest;
    }
  }

  /** Of the tables on the way to a page, those below the entry on which the walk stops are missing, and no others. */
  lemma MissingTables(words: seq<Frame>, owner: seq<Node>, pt: nat, vpn: Word, k: nat)
    requires Forest(words, owner) && IsRoot(owner, pt) && 1 <= k <= 4
    ensures Walk(words, pt, vpn).At?
    ensures Node(pt, Digits(vpn)[..k]) in owner <==> k < Walk(words, pt, vpn).level - 1
  {
    WalkStaysInForest(words, owner, pt, pt, vpn, 1);
    var s := Walk(words, pt, vpn);
    var n := Node(pt, Digits(vpn)[..k]);
    if n in owner && k >= s.level - 1 {
      var f: nat :| f < |owner| && owner[f] == n;
      assert n.path[..s.level - 2] == Digits(vpn)[..s.level - 2];
      var g := AncestorEntryValid(words, owner, f, s.level - 2);
      assert false;
    }
    if k < s.level - 2 {
      var g := AncestorEntryValid(words, owner, s.frame, k);
      assert Digits(vpn)[..s.level - 2][..k] == Digits(vpn)[..k];
    }
  }

  /** Adding the tables of a page to a set that lacks those from its L-th digit on. */
  lemma AddedCounted(needed: set<Node>, pt: nat, vpn: Word, level: nat)
    requires 2 <= level <= 6
    requires forall k :: 1 <= k <= 4 ==> (Node(pt, Digits(vpn)[..k]) in needed <==> k < level - 1)
    ensures |needed + TablesFor(pt, vpn)| == |needed| + 6 - level
  {
    TablesFromCounted(pt, vpn, level);
    var missing := TablesFrom(pt, vpn, level);
    forall n ensures n in needed + TablesFor(pt, vpn) <==> n in needed + missing {
      assert n in TablesFor(pt, vpn) <==> exists k :: 1 <= k <= 4 && n == Node(pt, Digits(vpn)[..k]);
    }
    assert needed + TablesFor(pt, vpn) == needed + missing;
    assert needed !! missing;
  }

  lemma TablesAdded(calls: seq<Call>, owner: seq<Node>, pt: nat, vpn: Word)
    requires Execute(calls).Running? && pt in Execute(calls).clients
    requires Forest(Execute(calls).words, owner) && Accounted(Execute(calls), calls, owner)
    ensures var s := Walk(Execute(calls).words, pt, vpn);
      s.At? && |TablesNeeded(calls) + TablesFor(pt, vpn)| == |TablesNeeded(calls)| + 6 - s.level
  {
    var words := Execute(calls).words;
    WalkStaysInForest(words, owner, pt, pt, vpn, 1);
    var level := Walk(words, pt, vpn).level;
    forall k | 1 <= k <= 4 ensures Node(pt, Digits(vpn)[..k]) in TablesNeeded(calls) <==> k < level - 1 {
      MissingTables(words, owner, pt, vpn, k);
    }
    AddedCounted(TablesNeeded(calls), pt, vpn, level);
  }

  /** The call names no frame that the client was not given. */
  predicate ProperCall(calls: seq<Call>, call: Call) {
    Execute(calls).Running? && (call.UpdateTable? ==> call.pt in Execute(calls).clients)
  }

  lemma NeededWith(calls: seq<Call>, call: Call)
    ensures FramesNeeded(calls + [call]) == match call
      case AllocFrame => FramesNeeded(calls) + 1
      case UpdateTable(pt, vpn, ppn) =>
        ClientFrames(calls) + |TablesNeeded(calls) + if ppn != NO_MAPPING then TablesFor(pt, vpn) else {}|
  {
    assert (calls + [call])[..|calls|] == calls;
  }

  lemma StepOf(calls: seq<Call>, call: Call)
    ensures Execute(calls + [call]) == Step(Execute(calls), call)
  {
    assert (calls + [call])[..|calls|] == calls;
  }

  /** A call makes the program exit exactly when the frames needed with it are more than 2^20. */
  lemma ExitsWhenFramesDoNotFit(calls: seq<Call>, call: Call)
    requires ProperCall(calls, call)
    ensures Execute(calls + [call]).Running? <==> FramesNeeded(calls + [call]) <= 1048576
    ensures Execute(calls + [call]).Exited? <==> FramesNeeded(calls + [call]) > 1048576
  {
    StepOf(calls, call);
    NeededWith(calls, call);
    FramesInUse(calls);
    match call
    case AllocFrame =>
    case UpdateTable(pt, vpn, ppn) =>
      var owner := HistoryInvariant(calls);
      var words := Execute(calls).words;
      TablesAdded(calls, owner, pt, vpn);
      if ppn == NO_MAPPING {
        DestroyRefinesRemoval(words, owner, pt, vpn);
      } else {
        var owner' := MapRefinesInsertion(words, owner, pt, vpn, ppn);
      }
  }

  lemma UnionIsLarger(a: set<Node>, b: set<Node>)
    ensures |a + b| >= |a|
  {
    assert a + b == a + (b - a) && a !! b - a;
  }

  lemma NeedsOnlyGrow(calls: seq<Call>, call: Call)
    ensures FramesNeeded(calls + [call]) >= FramesNeeded(calls)
  {
    NeededWith(calls, call);
    if call.UpdateTable? {
      UnionIsLarger(TablesNeeded(calls), if call.ppn != NO_MAPPING then TablesFor(call.pt, call.vpn) else {});
    }
  }

  /** A history in which clients name only frames they were given runs on exactly if all frames it needs fit. */
  lemma {:induction false} RunsIffFramesFit(calls: seq<Call>)
    requires !Execute(calls).Misused?
    ensures Execute(calls).Running? <==> FramesNeeded(calls) <= 1048576
    ensures Execute(calls).Exited? <==> FramesNeeded(calls) > 1048576
  {
    NoWalkFaults(calls);
    if calls != [] {
      var init, last := calls[..|calls| - 1], calls[|calls| - 1];
      assert calls == init + [last];
      RunsIffFramesFit(init);
      if Execute(init).Running? {
        ExitsWhenFramesDoNotFit(init, last);
      } else {
        NeedsOnlyGrow(init, last);
      }
    }
  }
}
