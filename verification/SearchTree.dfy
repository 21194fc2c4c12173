/** The directory tree that pfind searches, as `readdir`, `stat` and `opendir` show it. */
module SearchTree {
  import opened Sums

  /** What `stat` and `opendir` say of an entry: not a directory, a directory that opens, or one that does not. */
  datatype Kind = Regular | Openable(id: nat) | Unopenable

  datatype Item = Item(name: string, kind: Kind)

  /** Where a directory is listed: the directory that holds it and its position there. */
  datatype Link = Link(parent: nat, index: nat)

  /** Directory 0 is the root; `items[d]` is what `readdir` yields for directory d, in order. */
  datatype Tree = Tree(rootPath: string, items: seq<seq<Item>>, links: seq<Link>)

  /** `.` and `..` are read and skipped. */
  predicate Skipped(item: Item) {
    item.name == "." || item.name == ".."
  }

  predicate IsSubdirectory(item: Item) {
    !Skipped(item) && item.kind.Openable?
  }

  predicate IsLocked(item: Item) {
    !Skipped(item) && item.kind.Unopenable?
  }

  /** `strstr(name, term)` */
  predicate Contains(name: string, term: string) {
    term <= name || (name != "" && Contains(name[1..], term))
  }

  predicate OccursAt(name: string, term: string, i: nat) {
    i + |term| <= |name| && name[i..i + |term|] == term
  }

  lemma {:induction false} OccurrenceIsFound(name: string, term: string, i: nat)
    requires OccursAt(name, term, i)
    ensures Contains(name, term)
  {
    if i > 0 {
      assert name[1..][i - 1..i - 1 + |term|] == name[i..i + |term|];
      OccurrenceIsFound(name[1..], term, i - 1);
    }
  }

  lemma {:induction false} FoundOccurs(name: string, term: string) returns (i: nat)
    requires Contains(name, term)
    ensures OccursAt(name, term, i)
  {
    if term <= name {
      i := 0;
    } else {
      var j := FoundOccurs(name[1..], term);
      i := j + 1;
      assert name[i..i + |term|] == name[1..][j..j + |term|];
    }
  }

  /** A name contains the term exactly when the term occurs at some position of it. */
  lemma ContainsIsOccurrence(name: string, term: string)
    ensures Contains(name, term) <==> exists i: nat :: OccursAt(name, term, i)
  {
    if Contains(name, term) {
      var i := FoundOccurs(name, term);
    }
    forall i: nat | OccursAt(name, term, i) ensures Contains(name, term) {
      OccurrenceIsFound(name, term, i);
    }
  }

  predicate IsMatch(item: Item, term: string) {
    !Skipped(item) && item.kind.Regular? && Contains(item.name, term)
  }

  /** The position (d, i) exists. */
  predicate At(t: Tree, d: nat, i: nat) {
    d < |t.items| && i < |t.items[d]|
  }

  /**
   A finite tree: every directory but the root is listed at exactly one place, below a directory of smaller number.
   */
  ghost predicate IsTree(t: Tree) {
    && |t.items| >= 1
    && |t.links| == |t.items|
    && (forall c {:trigger ListedAt(t, c)} :: 1 <= c < |t.items| ==> ListedAt(t, c))
    && (forall d, i {:trigger ListsProperly(t, d, i)} :: 0 <= d < |t.items| && 0 <= i < |t.items[d]| ==>
      ListsProperly(t, d, i))
  }

  predicate ListedAt(t: Tree, c: nat)
    requires c < |t.items| == |t.links|
  {
    var l := t.links[c];
    && l.parent < c
    && l.index < |t.items[l.parent]|
    && IsSubdirectory(t.items[l.parent][l.index])
    && t.items[l.parent][l.index].kind.id == c
  }

  predicate ListsProperly(t: Tree, d: nat, i: nat)
    requires At(t, d, i) && |t.links| == |t.items|
  {
    IsSubdirectory(t.items[d][i]) ==>
      var c := t.items[d][i].kind.id; 1 <= c < |t.items| && t.links[c] == Link(d, i)
  }

  /** The path of a directory, each component followed by a slash. */
  function PathOf(t: Tree, d: nat): string
    requires |t.links| == |t.items|
    decreases d
  {
    if d == 0 || d >= |t.items| || !ListedAt(t, d) then t.rootPath
    else PathOf(t, t.links[d].parent) + t.items[t.links[d].parent][t.links[d].index].name + "/"
  }

  /** How many directories lie above a directory. */
  function Depth(t: Tree, d: nat): nat
    requires |t.links| == |t.items|
    decreases d
  {
    if d == 0 || d >= |t.items| || !ListedAt(t, d) then 0 else Depth(t, t.links[d].parent) + 1
  }

  /** The matching files among the first k entries of a directory. */
  function MatchesIn(items: seq<Item>, k: nat, term: string): nat
    requires k <= |items|
  {
    if k == 0 then 0 else MatchesIn(items, k - 1, term) + if IsMatch(items[k - 1], term) then 1 else 0
  }

  /** The number of matching files in the whole tree: what the search is for. */
  function TotalMatches(t: Tree, term: string): nat {
    Sum(seq(|t.items|, d requires 0 <= d < |t.items| => MatchesIn(t.items[d], |t.items[d]|, term)))
  }

  /** Every directory of the tree can be opened. */
  ghost predicate AllOpen(t: Tree) {
    forall d, i {:trigger t.items[d][i]} :: 0 <= d < |t.items| && 0 <= i < |t.items[d]| ==> !IsLocked(t.items[d][i])
  }

  /** Some entry among the first k of a directory is a directory that does not open. */
  predicate LockedBefore(items: seq<Item>, k: nat)
    requires k <= |items|
  {
    exists i :: 0 <= i < k && IsLocked(items[i])
  }
}
