/**
 The physical memory of hw01/os.c and the loops of hw01/pt.c, in place on arrays of words. Each method is
 proved to compute what `TableSpec` says, on any memory in which its walk does not leave the allocated frames.
 */
module PageTable {
  import opened Machine
  import opened TableSpec

  /** `pages[NPAGES]` and `nalloc` of os.c. */
  class PhysicalMemory {
    const pages: array<array?<Word>>
    var nalloc: nat
    ghost var words: seq<Frame>  // the words of every allocated frame, in order of allocation
    ghost var Repr: set<object>  // the arrays of the allocated frames

    ghost predicate Valid()
      reads this, pages, Repr
    {
      && pages.Length == NPAGES
      && nalloc == |words| <= NPAGES
      && (forall f :: 0 <= f < nalloc ==> pages[f] != null && pages[f] in Repr && pages[f].Length == ENTRIES)
      && (forall f :: 0 <= f < nalloc ==> words[f] == pages[f][..])
      && (forall f :: nalloc <= f < NPAGES ==> pages[f] == null)
      && (forall f, g :: 0 <= f < g < nalloc ==> pages[f] != pages[g])
    }

    constructor ()
      ensures Valid() && words == [] && Repr == {} && fresh(pages)
    {
      pages := new array?<Word>[NPAGES](_ => null);
      nalloc := 0;
      words := [];
      Repr := {};
    }

    /** Hands out the next zero-filled frame; the program exits when there is none left. */
    method AllocPageFrame() returns (ppn: Word, exited: bool)
      requires Valid()
      modifies this, pages
      ensures Valid() && exited == (old(nalloc) == 1048576)
      ensures exited ==> words == old(words) && Repr == old(Repr)
      ensures !exited ==> ppn == old(nalloc) && words == old(words) + [ZeroFrame()]
      ensures !exited ==> fresh(pages[ppn]) && Repr == old(Repr) + {pages[ppn]}
      ensures !exited ==> forall f :: 0 <= f < ppn ==> pages[f] == old(pages[f])
    {
      if nalloc == NPAGES {
        return 0, true;
      }
      ppn := nalloc;
      nalloc := nalloc + 1;
      var va := new Word[ENTRIES](_ => 0);
      pages[ppn] := va;
      exited := false;
      words := words + [ZeroFrame()];
      Repr := Repr + {va};
      assert pages[ppn][..] == ZeroFrame();
    }

    /** The page that holds a physical address, null when it is not allocated, and the offset in it. */
    function PhysToVirt(physAddr: Word): (array?<Word>, nat)
      reads this, pages
      requires pages.Length == NPAGES
    {
      var ppn := Shr(physAddr, 12);
      if ppn < NPAGES then (pages[ppn], physAddr % 4096) else (null, 0)
    }

    /** Byte `off` of frame f; there is nothing at frames from 2^20 on, nor at those not allocated. */
    lemma PhysToVirtOfFrame(f: nat, off: nat)
      requires Valid() && f < 0x10_0000_0000_0000 && off < 4096
      ensures f < nalloc ==> PhysToVirt(4096 * f + off) == (pages[f], off) && pages[f] != null
      ensures f >= nalloc ==> PhysToVirt(4096 * f + off).0 == null
    {
      ShrTwelve(4096 * f + off);
      FrameAndOffset(4096 * f + off, f, off);
    }

    lemma PhysToVirtOfBase(f: nat)
      requires Valid() && f < nalloc
      ensures PhysToVirt(4096 * f) == (pages[f], 0)
    {
      PhysToVirtOfFrame(f, 0);
    }

    /** `base[index] = word` through a pointer to the words of frame `at`. */
    method Store(base: array<Word>, index: nat, word: Word, ghost at: nat)
      requires Valid() && at < nalloc && base == pages[at] && index < ENTRIES
      modifies this`words, base
      ensures Valid() && words == Put(old(words), at, index, word)
    {
      base[index] := word;
      words := Put(words, at, index, word);
    }
  }

  lemma FrameAndOffset(addr: nat, f: nat, off: nat)
    requires addr == 4096 * f + off && off < 4096
    ensures addr / 4096 == f && addr % 4096 == off
  {
  }

  /** `frame << 12`: the physical address of a frame. */
  method FrameBase(frame: Word) returns (physAddr: Word)
    requires frame < 0x10_0000_0000_0000
    ensures physAddr == 4096 * frame
  {
    ShlTwelve(frame);
    physAddr := Shl(frame, 12);
  }

  /** `(entry >> 12) << 12`: the physical address an entry points at. */
  method NextBase(entry: Word) returns (physAddr: Word)
    ensures physAddr == 4096 * (entry / 4096)
  {
    ShrTwelve(entry);
    physAddr := FrameBase(Shr(entry, 12));
  }

  /** `(ppn << 12) + 1` */
  method TagPage(ppn: Word) returns (entry: Word)
    ensures entry == LeafEntry(ppn)
  {
    ShlTwelve(ppn);
    entry := Shl(ppn, 12) + 1;
  }

  /** One turn of the walk: it goes on below a valid entry of levels 1 to 4 and stops on any other. */
  lemma WalkTurn(words: seq<Frame>, frame: nat, vpn: Word, level: nat)
    requires AllFrames(words) && 1 <= level <= 5 && WalkFrom(words, frame, vpn, level).At?
    ensures frame < |words|
    ensures var index := Digit(vpn, level); var entry := words[frame][index];
      if level < 5 && entry % 2 == 1
      then entry / 4096 < |words| && WalkFrom(words, frame, vpn, level) == WalkFrom(words, entry / 4096, vpn, level + 1)
      else WalkFrom(words, frame, vpn, level) == At(frame, index, level + 1, entry % 2 == 1)
  {
  }

  /** One turn of the loop: the base of the level, the entry selected there, and where that entry points. */
  method ReadLevel(mem: PhysicalMemory, physLevelBase: Word, vpn: Word, level: nat, ghost frame: Word)
    returns (base: array<Word>, index: nat, next: Word, valid: Word)
    requires mem.Valid() && frame < mem.nalloc && physLevelBase == 4096 * frame && 1 <= level <= 5
    ensures base == mem.pages[frame] && index == Digit(vpn, level)
    ensures var entry := mem.words[frame][index]; next == 4096 * (entry / 4096) && valid == entry % 2
  {
    mem.PhysToVirtOfBase(frame);
    base := mem.PhysToVirt(physLevelBase).0;
    index := Digit(vpn, level);
    next := NextBase(base[index]);
    valid := base[index] % 2;
  }

  /** The do-while loop that update and query share. */
  method WalkTable(mem: PhysicalMemory, pt: Word, vpn: Word)
    returns (base: array<Word>, index: nat, level: nat, valid: Word, ghost at: nat)
    requires mem.Valid() && Walk(mem.words, pt, vpn).At?
    ensures var s := Walk(mem.words, pt, vpn);
      index == s.index && level == s.level && (valid == 1 <==> s.valid) && base == mem.pages[s.frame]
    ensures at == Walk(mem.words, pt, vpn).frame
  {
    ghost var words := mem.words;
    var physLevelBase := FrameBase(pt);
    at := pt;
    WalkTurn(words, pt, vpn, 1);
    base, index, physLevelBase, valid := ReadLevel(mem, physLevelBase, vpn, 1, at);
    level := 2;
    while level <= 5 && valid == 1
      invariant 2 <= level <= 6 && at < mem.nalloc && base == mem.pages[at] && index == Digit(vpn, level - 1)
      invariant valid == words[at][index] % 2 && physLevelBase == 4096 * (words[at][index] / 4096)
      invariant WalkFrom(words, at, vpn, level - 1) == Walk(words, pt, vpn)
      decreases 6 - level
    {
      WalkTurn(words, at, vpn, level - 1);
      at := words[at][index] / 4096;
      base, index, physLevelBase, valid := ReadLevel(mem, physLevelBase, vpn, level, at);
      WalkTurn(words, at, vpn, level);
      level := level + 1;
    }
    WalkTurn(words, at, vpn, level - 1);
  }

  method PageTableQuery(mem: PhysicalMemory, pt: Word, vpn: Word) returns (ppn: Word)
    requires mem.Valid() && Walk(mem.words, pt, vpn).At?
    ensures ppn == Query(mem.words, pt, vpn)
    ensures var s := Walk(mem.words, pt, vpn);
      ppn == if s.level == 6 && s.valid then mem.words[s.frame][s.index] / 4096 else 0xFFFF_FFFF_FFFF_FFFF
  {
    var base, index, level, valid, at := WalkTable(mem, pt, vpn);
    if level == 6 && valid == 1 {
      ShrTwelve(base[index]);
      ppn := Shr(base[index], 12);
    } else {
      ppn := NO_MAPPING;
    }
  }

  /** One turn of the creation loop: a fresh table is linked at `base[index]` and becomes the current one. */
  method AddTable(mem: PhysicalMemory, base: array<Word>, index: nat, vpn: Word, level: nat, ghost at: nat)
    returns (exited: bool, base': array<Word>, index': nat, ghost at': nat)
    requires mem.Valid() && 1 <= level <= 5
    requires at < mem.nalloc && base == mem.pages[at] && index < ENTRIES
    modifies mem, mem.pages, base
    ensures mem.Valid() && fresh(mem.Repr - old(mem.Repr))
    ensures exited ==> Grow(old(mem.words), at, index, vpn, level) == Full(mem.words)
    ensures !exited ==> at' < mem.nalloc && base' == mem.pages[at'] && index' < ENTRIES
    ensures !exited ==> Grow(old(mem.words), at, index, vpn, level) == Grow(mem.words, at', index', vpn, level + 1)
  {
    base', index', at' := base, index, at;
    ghost var words := mem.words;
    var frame;
    frame, exited := mem.AllocPageFrame();
    if !exited {
      var physLevelBase := FrameBase(frame);
      mem.Store(base, index, physLevelBase + 1, at);
      assert mem.words == Link(words, at, index);
      mem.PhysToVirtOfBase(frame);
      base', at' := mem.PhysToVirt(physLevelBase).0, frame;
      index' := Digit(vpn, level);
    }
  }

  /** The creation loop: the missing tables below an invalid entry, down to the last level. */
  method AddTables(mem: PhysicalMemory, base0: array<Word>, index0: nat, vpn: Word, level0: nat, ghost at0: nat)
    returns (exited: bool, base: array<Word>, index: nat, ghost at: nat)
    requires mem.Valid() && 2 <= level0 <= 6
    requires at0 < mem.nalloc && base0 == mem.pages[at0] && index0 < ENTRIES
    modifies mem, mem.pages, mem.Repr
    ensures mem.Valid() && fresh(mem.Repr - old(mem.Repr))
    ensures var g := Grow(old(mem.words), at0, index0, vpn, level0);
      && mem.words == g.words
      && exited == g.Full?
      && (g.Slot? ==> g.frame == at && g.index == index && base == mem.pages[at])
  {
    base, index, at := base0, index0, at0;
    var level := level0;
    exited := false;
    ghost var goal := Grow(mem.words, at0, index0, vpn, level0);
    while level <= 5
      invariant mem.Valid() && fresh(mem.Repr - old(mem.Repr)) && !exited
      invariant 2 <= level <= 6 && at < mem.nalloc && base == mem.pages[at] && index < ENTRIES
      invariant Grow(mem.words, at, index, vpn, level) == goal
      decreases 6 - level
    {
      exited, base, index, at := AddTable(mem, base, index, vpn, level, at);
      if exited {
        return;
      }
      level := level + 1;
    }
  }

  method PageTableUpdate(mem: PhysicalMemory, pt: Word, vpn: Word, ppn: Word) returns (exited: bool)
    requires mem.Valid() && Walk(mem.words, pt, vpn).At?
    modifies mem, mem.pages, mem.Repr
    ensures mem.Valid()
    ensures mem.words == Update(old(mem.words), pt, vpn, ppn).words
    ensures exited == Update(old(mem.words), pt, vpn, ppn).OutOfMemory?
    ensures ppn == 0xFFFF_FFFF_FFFF_FFFF ==> !exited
    ensures ppn == 0xFFFF_FFFF_FFFF_FFFF ==>
      var s := Walk(old(mem.words), pt, vpn);
      mem.words == if s.valid then Put(old(mem.words), s.frame, s.index, 0) else old(mem.words)
  {
    var base, index, level, valid, at := WalkTable(mem, pt, vpn);
    exited := UpdateEntry(mem, base, index, level, valid, vpn, ppn, at);
  }

  /** Destroy or create, from the entry the walk stopped on. */
  method UpdateEntry(mem: PhysicalMemory, base0: array<Word>, index0: nat, level: nat, valid: Word, vpn: Word,
    ppn: Word, ghost at0: nat)
    returns (exited: bool)
    requires mem.Valid() && 2 <= level <= 6
    requires at0 < mem.nalloc && base0 == mem.pages[at0] && index0 < ENTRIES
    modifies mem, mem.pages, mem.Repr
    ensures mem.Valid()
    ensures mem.words == UpdateAt(old(mem.words), at0, index0, level, valid == 1, vpn, ppn).words
    ensures exited == UpdateAt(old(mem.words), at0, index0, level, valid == 1, vpn, ppn).OutOfMemory?
  {
    exited := false;
    if ppn == NO_MAPPING {
      if valid == 1 {
        mem.Store(base0, index0, 0, at0);
      }
    } else {
      var base, index;
      ghost var at;
      exited, base, index, at := AddTables(mem, base0, index0, vpn, level, at0);
      if !exited {
        var entry := TagPage(ppn);
        mem.Store(base, index, entry, at);
      }
    }
  }
}
