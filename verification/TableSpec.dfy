/**
 The five-level page table of hw01, on values: what the walk, the update and the query compute over
 the words of the allocated frames. `PageTable` holds the loops and proves that they compute these.
 */
module TableSpec {
  import opened Machine

  const NPAGES: nat := 1048576
  const NO_MAPPING: Word := 0xFFFF_FFFF_FFFF_FFFF
  const ENTRIES: nat := 512

  /** The words of one page frame. */
  type Frame = seq<Word>

  function ZeroFrame(): (z: Frame)
    ensures |z| == ENTRIES && forall i :: 0 <= i < ENTRIES ==> z[i] == 0
  {
    seq(ENTRIES, i => 0)
  }

  predicate AllFrames(words: seq<Frame>) {
    |words| <= NPAGES && forall f :: 0 <= f < |words| ==> |words[f]| == ENTRIES
  }

  /** The nine bits of a virtual page number that select the entry at a level. */
  function Digit(vpn: Word, level: nat): (d: nat)
    requires 1 <= level <= 5
    ensures d < ENTRIES
  {
    Shr(vpn, (5 - level) * 9) % 512
  }

  function Digits(vpn: Word): (ds: seq<nat>)
    ensures |ds| == 5 && forall k :: 0 <= k < 5 ==> ds[k] == Digit(vpn, k + 1)
  {
    [Digit(vpn, 1), Digit(vpn, 2), Digit(vpn, 3), Digit(vpn, 4), Digit(vpn, 5)]
  }

  /**
   Where the walk of pt.c stops: the entry it read last, `level` as the loop leaves it, and the
   entry's valid bit. `Fault` is a walk that leaves the allocated frames.
   */
  datatype Stop = Fault | At(frame: nat, index: nat, level: nat, valid: bool)

  function WalkFrom(words: seq<Frame>, frame: nat, vpn: Word, level: nat): (s: Stop)
    requires AllFrames(words) && 1 <= level <= 5
    ensures s.At? ==> s.frame < |words| && s.index < ENTRIES && level < s.level <= 6
    ensures s.At? ==> s.valid == (words[s.frame][s.index] % 2 == 1) && (s.valid ==> s.level == 6)
    decreases 5 - level
  {
    if frame >= |words| then Fault else
    var index := Digit(vpn, level);
    var entry := words[frame][index];
    if level < 5 && entry % 2 == 1 then WalkFrom(words, entry / 4096, vpn, level + 1)
    else At(frame, index, level + 1, entry % 2 == 1)
  }

  function Walk(words: seq<Frame>, pt: nat, vpn: Word): Stop
    requires AllFrames(words)
  {
    WalkFrom(words, pt, vpn, 1)
  }

  /** What a query answers where its walk stopped. */
  function Query(words: seq<Frame>, pt: nat, vpn: Word): Word
    requires AllFrames(words) && Walk(words, pt, vpn).At?
  {
    var s := Walk(words, pt, vpn);
    if s.level == 6 && s.valid then words[s.frame][s.index] / 4096 else NO_MAPPING
  }

  function Put(words: seq<Frame>, frame: nat, index: nat, w: Word): (r: seq<Frame>)
    requires AllFrames(words) && frame < |words| && index < ENTRIES
    ensures AllFrames(r) && |r| == |words|
  {
    var updated: Frame := words[frame][index := w];
    words[frame := updated]
  }

  /** A zero-filled frame is allocated and the entry (frame, index) is pointed at it. */
  function Link(words: seq<Frame>, frame: nat, index: nat): (r: seq<Frame>)
    requires AllFrames(words) && frame < |words| < NPAGES && index < ENTRIES
    ensures AllFrames(r) && |r| == |words| + 1
  {
    Put(words + [ZeroFrame()], frame, index, 4096 * |words| + 1)
  }

  /** The tables a create adds below an invalid entry: the slot it ends on, or memory running out on the way. */
  datatype Grown = Slot(words: seq<Frame>, frame: nat, index: nat) | Full(words: seq<Frame>)

  function Grow(words: seq<Frame>, frame: nat, index: nat, vpn: Word, level: nat): (g: Grown)
    requires AllFrames(words) && frame < |words| && index < ENTRIES && 1 <= level <= 6
    ensures AllFrames(g.words)
    ensures g.Slot? ==> g.frame < |g.words| && g.index < ENTRIES
    decreases 6 - level
  {
    if level == 6 then Slot(words, frame, index)
    else if |words| == NPAGES then Full(words)
    else Grow(Link(words, frame, index), |words|, Digit(vpn, level), vpn, level + 1)
  }

  /** An update finishes, or the program exits because physical memory ran out. */
  datatype Outcome = Done(words: seq<Frame>) | OutOfMemory(words: seq<Frame>)

  /** What an update does once its walk has stopped at (at, index). */
  function UpdateAt(words: seq<Frame>, at: nat, index: nat, level: nat, valid: bool, vpn: Word, ppn: Word): (o: Outcome)
    requires AllFrames(words) && at < |words| && index < ENTRIES && 2 <= level <= 6
    ensures AllFrames(o.words)
  {
    if ppn == NO_MAPPING then Done(if valid then Put(words, at, index, 0) else words) else
    match Grow(words, at, index, vpn, level)
    case Full(grown) => OutOfMemory(grown)
    case Slot(grown, frame, i) => Done(Put(grown, frame, i, LeafEntry(ppn)))
  }

  function Update(words: seq<Frame>, pt: nat, vpn: Word, ppn: Word): (o: Outcome)
    requires AllFrames(words) && Walk(words, pt, vpn).At?
    ensures AllFrames(o.words)
  {
    var s := Walk(words, pt, vpn);
    UpdateAt(words, s.frame, s.index, s.level, s.valid, vpn, ppn)
  }

  /** The entry that maps a page: the low 52 bits of its number above a set valid bit. */
  function LeafEntry(ppn: Word): (w: Word)
    ensures w % 2 == 1 && w / 4096 == ppn % 0x10_0000_0000_0000
  {
    TagRoundTrip(ppn % 0x10_0000_0000_0000);
    4096 * (ppn % 0x10_0000_0000_0000) + 1
  }

  lemma TagRoundTrip(n: nat)
    ensures (4096 * n + 1) % 2 == 1 && (4096 * n + 1) / 4096 == n
  {
    OddWord(4096 * n + 1, 2048 * n);
    FrameOfWord(4096 * n + 1, n);
  }

  lemma OddWord(w: nat, half: nat)
    requires w == 2 * half + 1
    ensures w % 2 == 1
  {
  }

  lemma FrameOfWord(w: nat, n: nat)
    requires w == 4096 * n + 1
    ensures w / 4096 == n
  {
  }

  // ---------------------------------------------------------------- digits and page numbers

  /** The number that a sequence of nine-bit digits spells. */
  function Spell(ds: seq<nat>): nat {
    if ds == [] then 0 else 512 * Spell(ds[..|ds| - 1]) + ds[|ds| - 1]
  }

  lemma SpelledByDigits(vpn: Word)
    ensures vpn % 0x2000_0000_0000 == Spell(Digits(vpn))
  {
    var ds := Digits(vpn);
    SpellPrefixes(ds);
    SpellBound(ds);
    var v4, v3, v2, v1 := ShiftsPeelDigits(vpn);
    var high := v4 / 512;
    assert v4 == 512 * high + Spell(ds[..1]);
    assert v3 == 262144 * high + Spell(ds[..2]);
    assert v2 == 134217728 * high + Spell(ds[..3]);
    assert v1 == 68719476736 * high + Spell(ds[..4]);
    SplitBelow45(vpn, high, Spell(ds));
  }

  /** Each shift by nine drops one digit. */
  lemma ShiftsPeelDigits(vpn: Word) returns (v4: nat, v3: nat, v2: nat, v1: nat)
    ensures vpn == 512 * v1 + Digit(vpn, 5) && v1 == 512 * v2 + Digit(vpn, 4) && v2 == 512 * v3 + Digit(vpn, 3)
    ensures v3 == 512 * v4 + Digit(vpn, 2) && v4 == 512 * (v4 / 512) + Digit(vpn, 1)
  {
    v1, v2, v3, v4 := Shr(vpn, 9), Shr(vpn, 18), Shr(vpn, 27), Shr(vpn, 36);
    ShrNineMore(vpn, 0);
    ShrNineMore(vpn, 9);
    ShrNineMore(vpn, 18);
    ShrNineMore(vpn, 27);
    PeelDigit(vpn);
    PeelDigit(v1);
    PeelDigit(v2);
    PeelDigit(v3);
    PeelDigit(v4);
  }

  lemma PeelDigit(v: nat)
    ensures v == 512 * (v / 512) + v % 512
  {
  }

  lemma SpellPrefixes(ds: seq<nat>)
    requires |ds| == 5
    ensures Spell(ds[..1]) == ds[0] && ds[..5] == ds
    ensures forall k {:trigger ds[k]} :: 1 <= k < 5 ==> Spell(ds[..k + 1]) == 512 * Spell(ds[..k]) + ds[k]
  {
    assert ds[..1][..0] == [];
    forall k {:trigger ds[k]} | 1 <= k < 5
      ensures Spell(ds[..k + 1]) == 512 * Spell(ds[..k]) + ds[k]
    {
      assert ds[..k + 1][..k] == ds[..k];
    }
  }

  lemma SpellBound(ds: seq<nat>)
    requires |ds| == 5 && forall k :: 0 <= k < 5 ==> ds[k] < ENTRIES
    ensures Spell(ds) < 0x2000_0000_0000
  {
    SpellPrefixes(ds);
    assert Spell(ds[..2]) < 262144;
    assert Spell(ds[..3]) < 134217728;
    assert Spell(ds[..4]) < 68719476736;
  }

  lemma SplitBelow45(v: nat, high: nat, low: nat)
    requires v == 0x2000_0000_0000 * high + low && low < 0x2000_0000_0000
    ensures v % 0x2000_0000_0000 == low
  {
  }

  lemma {:induction false} SpellInjective(a: seq<nat>, b: seq<nat>)
    requires |a| == |b| && Spell(a) == Spell(b)
    requires forall k :: 0 <= k < |a| ==> a[k] < ENTRIES && b[k] < ENTRIES
    ensures a == b
  {
    if a != [] {
      var n := |a| - 1;
      SpellInjective(a[..n], b[..n]);
      assert a == a[..n] + [a[n]] && b == b[..n] + [b[n]];
    }
  }

  /** Two page numbers select the same five entries exactly when they agree modulo 2^45. */
  lemma SameDigitsIffCongruent(v: Word, u: Word)
    ensures Digits(v) == Digits(u) <==> v % 0x2000_0000_0000 == u % 0x2000_0000_0000
  {
    SpelledByDigits(v);
    SpelledByDigits(u);
    if v % 0x2000_0000_0000 == u % 0x2000_0000_0000 {
      SpellInjective(Digits(v), Digits(u));
    }
  }
}
