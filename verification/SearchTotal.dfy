/** What the search counts, and what its paths name, said of the tree alone. */
module SearchTotal {
  import opened Sums
  import opened SearchTree

  // ---------------------------------------------------------------- the matching files are counted one by one

  /** What makes an entry count: a file whose name contains the term. */
  lemma MatchesByName(item: Item, term: string)
    ensures IsMatch(item, term) <==>
      && item.kind.Regular? && item.name != "." && item.name != ".."
      && exists before: string, after: string :: item.name == before + term + after
  {
    ContainsIsOccurrence(item.name, term);
    if i: nat :| OccursAt(item.name, term, i) {
      assert item.name == item.name[..i] + term + item.name[i + |term|..];
    }
    forall before: string, after: string | item.name == before + term + after ensures Contains(item.name, term) {
      assert item.name[|before|..|before| + |term|] == term;
      OccurrenceIsFound(item.name, term, |before|);
    }
  }

  /** The positions of the matching files among the first k entries of directory d. */
  function MatchesAt(t: Tree, term: string, d: nat, k: nat): set<(nat, nat)>
    requires d < |t.items| && k <= |t.items[d]|
  {
    set i: nat | i < k && IsMatch(t.items[d][i], term) :: (d, i)
  }

  lemma {:induction false} MatchesAtCounted(t: Tree, term: string, d: nat, k: nat)
    requires d < |t.items| && k <= |t.items[d]|
    ensures |MatchesAt(t, term, d, k)| == MatchesIn(t.items[d], k, term)
  {
    if k == 0 {
      assert MatchesAt(t, term, d, k) == {};
    } else {
      MatchesAtCounted(t, term, d, k - 1);
      assert MatchesAt(t, term, d, k)
          == MatchesAt(t, term, d, k - 1) + if IsMatch(t.items[d][k - 1], term) then {(d, k - 1)} else {};
    }
  }

  /** The positions of the matching files in the first n directories. */
  function MatchesBelow(t: Tree, term: string, n: nat): set<(nat, nat)>
    requires n <= |t.items|
  {
    set d: nat, i: nat | d < n && i < |t.items[d]| && IsMatch(t.items[d][i], term) :: (d, i)
  }

  function CountsBelow(t: Tree, term: string, n: nat): seq<nat>
    requires n <= |t.items|
  {
    seq(n, d requires 0 <= d < n => MatchesIn(t.items[d], |t.items[d]|, term))
  }

  lemma OneDirectoryMore(t: Tree, term: string, n: nat)
    requires n < |t.items|
    ensures MatchesBelow(t, term, n + 1) == MatchesBelow(t, term, n) + MatchesAt(t, term, n, |t.items[n]|)
    ensures MatchesBelow(t, term, n) !! MatchesAt(t, term, n, |t.items[n]|)
  {
    var above, all := MatchesBelow(t, term, n) + MatchesAt(t, term, n, |t.items[n]|), MatchesBelow(t, term, n + 1);
    forall p: (nat, nat) ensures p in all <==> p in above {
    }
    assert all == above;
  }

  lemma OneCountMore(t: Tree, term: string, n: nat)
    requires n < |t.items|
    ensures Sum(CountsBelow(t, term, n + 1)) == Sum(CountsBelow(t, term, n)) + MatchesIn(t.items[n], |t.items[n]|, term)
  {
    assert CountsBelow(t, term, n + 1)[..n] == CountsBelow(t, term, n);
  }

  lemma NothingBelowZero(t: Tree, term: string)
    ensures MatchesBelow(t, term, 0) == {} && Sum(CountsBelow(t, term, 0)) == 0
  {
  }

  lemma {:induction false} MatchesBelowCounted(t: Tree, term: string, n: nat)
    requires n <= |t.items|
    ensures |MatchesBelow(t, term, n)| == Sum(CountsBelow(t, term, n))
    decreases n
  {
    if n == 0 {
      NothingBelowZero(t, term);
    } else {
      var k := n - 1;
      MatchesBelowCounted(t, term, k);
      MatchesAtCounted(t, term, k, |t.items[k]|);
      OneDirectoryMore(t, term, k);
      OneCountMore(t, term, k);
    }
  }

  /** The total is the number of files in the whole tree whose name contains the term. */
  lemma TotalIsTheNumberOfFiles(t: Tree, term: string)
    ensures TotalMatches(t, term) == |set d: nat, i: nat |
      && d < |t.items| && i < |t.items[d]|
      && t.items[d][i].kind == Regular && t.items[d][i].name != "." && t.items[d][i].name != ".."
      && (exists before: string, after: string :: t.items[d][i].name == before + term + after) :: (d, i)|
  {
    MatchesBelowCounted(t, term, |t.items|);
    assert CountsBelow(t, term, |t.items|)
        == seq(|t.items|, d requires 0 <= d < |t.items| => MatchesIn(t.items[d], |t.items[d]|, term));
    forall item: Item ensures IsMatch(item, term) <==>
      && item.kind == Regular && item.name != "." && item.name != ".."
      && exists before: string, after: string :: item.name == before + term + after
    {
      MatchesByName(item, term);
    }
    assert MatchesBelow(t, term, |t.items|) == set d: nat, i: nat |
      && d < |t.items| && i < |t.items[d]|
      && t.items[d][i].kind == Regular && t.items[d][i].name != "." && t.items[d][i].name != ".."
      && (exists before: string, after: string :: t.items[d][i].name == before + term + after) :: (d, i);
  }

  // ---------------------------------------------------------------- paths

  /** The root has its own path; a directory has that of the one that lists it, then its name, then a slash. */
  lemma PathsByName(t: Tree)
    requires IsTree(t)
    ensures PathOf(t, 0) == t.rootPath
    ensures forall d: nat, i: nat {:trigger t.items[d][i]} :: d < |t.items| && i < |t.items[d]| ==>
      t.items[d][i].kind.Openable? && t.items[d][i].name != "." && t.items[d][i].name != ".." ==>
      PathOf(t, t.items[d][i].kind.id) == PathOf(t, d) + t.items[d][i].name + "/"
  {
    forall d: nat, i: nat | At(t, d, i) && t.items[d][i].kind.Openable? && !Skipped(t.items[d][i])
      ensures PathOf(t, t.items[d][i].kind.id) == PathOf(t, d) + t.items[d][i].name + "/"
    {
      assert ListsProperly(t, d, i);
      assert ListedAt(t, t.items[d][i].kind.id);
    }
  }

  /** The root's path ends with a slash, as main makes it; no name holds one, and a directory lists no name twice. */
  ghost predicate NamesAreProper(t: Tree) {
    && t.rootPath != "" && t.rootPath[|t.rootPath| - 1] == '/'
    && (forall d: nat, i: nat {:trigger t.items[d][i]} :: d < |t.items| && i < |t.items[d]| ==>
      '/' !in t.items[d][i].name)
    && (forall d: nat, i: nat, j: nat {:trigger t.items[d][i], t.items[d][j]} ::
      d < |t.items| && i < |t.items[d]| && j < |t.items[d]| && t.items[d][i].name == t.items[d][j].name ==> i == j)
  }

  lemma {:induction false} PathEndsWithSlash(t: Tree, d: nat)
    requires IsTree(t) && NamesAreProper(t) && d < |t.items|
    ensures |PathOf(t, d)| >= |t.rootPath| && PathOf(t, d)[|PathOf(t, d)| - 1] == '/'
    ensures d > 0 ==> |PathOf(t, d)| > |t.rootPath|
  {
    if d > 0 {
      assert ListedAt(t, d);
      PathEndsWithSlash(t, t.links[d].parent);
    }
  }

  lemma NoSlashAfter(p: string, a: string)
    requires '/' !in a
    ensures forall k :: |p| <= k < |p + a| ==> (p + a)[k] != '/'
  {
    forall k | |p| <= k < |p + a| ensures (p + a)[k] != '/' {
      assert (p + a)[k] == a[k - |p|];
    }
  }

  /** What lies after the last slash can be told from what lies before it. */
  lemma SplitsAtTheSlash(p: string, a: string, q: string, b: string)
    requires p != "" && q != "" && p[|p| - 1] == '/' && q[|q| - 1] == '/' && '/' !in a && '/' !in b
    requires p + a == q + b
    ensures p == q && a == b
  {
    NoSlashAfter(p, a);
    NoSlashAfter(q, b);
    assert (p + a)[|p| - 1] == '/' && (q + b)[|q| - 1] == '/';
    assert (p + a)[..|p|] == p && (q + b)[..|q|] == q && (p + a)[|p|..] == a && (q + b)[|q|..] == b;
  }

  /** No two directories have the same path. */
  lemma {:induction false} PathsTellDirectoriesApart(t: Tree, d: nat, e: nat)
    requires IsTree(t) && NamesAreProper(t) && d < |t.items| && e < |t.items|
    requires PathOf(t, d) == PathOf(t, e)
    ensures d == e
    decreases d
  {
    PathEndsWithSlash(t, d);
    PathEndsWithSlash(t, e);
    if d > 0 && e > 0 {
      assert ListedAt(t, d) && ListedAt(t, e);
      var l, m := t.links[d], t.links[e];
      PathEndsWithSlash(t, l.parent);
      PathEndsWithSlash(t, m.parent);
      var a, b := t.items[l.parent][l.index].name, t.items[m.parent][m.index].name;
      var p, q := PathOf(t, l.parent), PathOf(t, m.parent);
      assert PathOf(t, d)[..|PathOf(t, d)| - 1] == p + a && PathOf(t, e)[..|PathOf(t, e)| - 1] == q + b;
      SplitsAtTheSlash(p, a, q, b);
      PathsTellDirectoriesApart(t, l.parent, m.parent);
    }
  }
}
