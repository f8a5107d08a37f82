/**
 * What a scan guarantees about its results: exclusion prunes whole subtrees,
 * the root comes first, the list is in pre-order without repetitions, the map
 * has exactly the listed paths as keys and holds their `lstat`, and the
 * counters and the deepest-directory figure agree with the list.
 */
module FtsLemmas {
  import opened Wrappers
  import opened FileTree
  import opened Seqs
  import opened Fts

  // ---------------------------------------------------------------------------
  // Where the records of a walk lie

  /** Record `r`, produced by walking below `file` reached at `depth`, lies under `file`,
      at the matching depth, and no path from `file` down to it is excluded. */
  ghost predicate Below(exclude: Option<Path -> bool>, file: Path, depth: nat, r: Record) {
    && file <= r.path
    && r.depth == depth + |r.path| - |file|
    && forall k :: |file| <= k <= |r.path| ==> !Excluded(exclude, r.path[..k])
  }

  /** A path that extends `file + [name]` carries `name` right after `file`. */
  lemma ExtendsAt(file: Path, name: Name, p: Path)
    requires file + [name] <= p
    ensures |file| < |p| && p[|file|] == name && file <= p
  {
    assert p[..|file| + 1] == file + [name];
    assert p[..|file|] == (file + [name])[..|file|];
  }

  lemma {:induction false} VisitBelow(exclude: Option<Path -> bool>, n: Node, file: Path, depth: nat)
    ensures forall r :: r in Visit(exclude, n, file, depth) ==> Below(exclude, file, depth, r)
    decreases n, 1, 0
  {
    if !Excluded(exclude, file) {
      assert file[..|file|] == file;
      if n.Dir? {
        VisitEntriesBelow(exclude, n, 0, file, depth);
        forall r | r in VisitEntries(exclude, n, 0, file, depth)
          ensures Below(exclude, file, depth, r)
        {
          var k :| 0 <= k < |n.entries| && Below(exclude, file + [n.entries[k].name], depth + 1, r);
          ExtendsAt(file, n.entries[k].name, r.path);
          assert r.path[..|file|] == file;
        }
      }
    }
  }

  lemma {:induction false} VisitEntriesBelow(exclude: Option<Path -> bool>, d: Node, i: nat, file: Path, depth: nat)
    requires d.Dir? && i <= |d.entries|
    ensures forall r :: r in VisitEntries(exclude, d, i, file, depth) ==>
      exists k :: i <= k < |d.entries| && Below(exclude, file + [d.entries[k].name], depth + 1, r)
    decreases d, 0, |d.entries| - i
  {
    if i < |d.entries| {
      VisitBelow(exclude, d.entries[i].node, file + [d.entries[i].name], depth + 1);
      VisitEntriesBelow(exclude, d, i + 1, file, depth);
    }
  }

  /** `rel`, followed from `n`, reaches a node whose `lstat` is `s`. */
  ghost predicate Describes(n: Node, rel: Path, s: Stat) {
    Lookup(n, rel).Some? && Lstat(Lookup(n, rel).value) == s
  }

  lemma {:induction false} VisitFound(exclude: Option<Path -> bool>, n: Node, file: Path, depth: nat)
    requires WellFormed(n)
    ensures forall r :: r in Visit(exclude, n, file, depth) ==>
      file <= r.path && Describes(n, r.path[|file|..], r.stat)
    decreases n, 1, 0
  {
    if !Excluded(exclude, file) {
      assert file[|file|..] == [];
      if n.Dir? {
        VisitEntriesFound(exclude, n, 0, file, depth);
        forall r | r in VisitEntries(exclude, n, 0, file, depth)
          ensures file <= r.path && Describes(n, r.path[|file|..], r.stat)
        {
          var k :| 0 <= k < |n.entries| && file + [n.entries[k].name] <= r.path
                   && Describes(n.entries[k].node, r.path[|file| + 1..], r.stat);
          ExtendsAt(file, n.entries[k].name, r.path);
          ChildOfDistinct(n.entries, k);
          var rel := r.path[|file|..];
          assert rel[0] == n.entries[k].name && rel[1..] == r.path[|file| + 1..];
        }
      }
    }
  }

  lemma {:induction false} VisitEntriesFound(exclude: Option<Path -> bool>, d: Node, i: nat, file: Path, depth: nat)
    requires d.Dir? && i <= |d.entries| && WellFormed(d)
    ensures forall r :: r in VisitEntries(exclude, d, i, file, depth) ==>
      exists k :: i <= k < |d.entries| && file + [d.entries[k].name] <= r.path
        && Describes(d.entries[k].node, r.path[|file| + 1..], r.stat)
    decreases d, 0, |d.entries| - i
  {
    if i < |d.entries| {
      var child := file + [d.entries[i].name];
      VisitFound(exclude, d.entries[i].node, child, depth + 1);
      assert |child| == |file| + 1;
      VisitEntriesFound(exclude, d, i + 1, file, depth);
    }
  }

  /** Every entry's records are among the records of the entries from `i` on, when `i <= j`. */
  lemma {:induction false} VisitEntriesIncludes(exclude: Option<Path -> bool>, d: Node, i: nat, j: nat, file: Path, depth: nat)
    requires d.Dir? && i <= j < |d.entries|
    ensures forall r :: r in Visit(exclude, d.entries[j].node, file + [d.entries[j].name], depth + 1) ==>
      r in VisitEntries(exclude, d, i, file, depth)
    decreases j - i
  {
    if i < j {
      VisitEntriesIncludes(exclude, d, i + 1, j, file, depth);
    }
  }

  /** Every node of the tree none of whose ancestors, itself included, is excluded is visited. */
  lemma {:induction false} VisitComplete(exclude: Option<Path -> bool>, n: Node, file: Path, depth: nat, q: Path)
    requires Lookup(n, q).Some?
    requires forall k :: 0 <= k <= |q| ==> !Excluded(exclude, file + q[..k])
    ensures exists r :: r in Visit(exclude, n, file, depth) && r.path == file + q
    decreases q
  {
    assert file + q[..0] == file;
    if q == [] {
      assert file + q == file;
      assert Visit(exclude, n, file, depth)[0].path == file;
    } else {
      var c := Child(n.entries, q[0]).value;
      var j :| 0 <= j < |n.entries| && n.entries[j] == Entry(q[0], c);
      forall k | 0 <= k <= |q[1..]|
        ensures !Excluded(exclude, (file + [q[0]]) + q[1..][..k])
      {
        assert (file + [q[0]]) + q[1..][..k] == file + q[..k + 1];
      }
      VisitComplete(exclude, c, file + [q[0]], depth + 1, q[1..]);
      var r :| r in Visit(exclude, c, file + [q[0]], depth + 1) && r.path == (file + [q[0]]) + q[1..];
      VisitEntriesIncludes(exclude, n, 0, j, file, depth);
      assert (file + [q[0]]) + q[1..] == file + q;
      assert r in Visit(exclude, n, file, depth);
    }
  }

  // ---------------------------------------------------------------------------
  // Pre-order

  /** A path that is a prefix of another (an ancestor, or the same path) comes no later. */
  ghost predicate PreOrdered(recs: seq<Record>) {
    forall i, j :: 0 <= i < |recs| && 0 <= j < |recs| && recs[i].path <= recs[j].path ==> i <= j
  }

  lemma PreOrderedAppend(a: seq<Record>, b: seq<Record>)
    requires PreOrdered(a) && PreOrdered(b)
    requires forall x, y :: x in a && y in b ==> !(y.path <= x.path)
    ensures PreOrdered(a + b)
  {
    var ab := a + b;
    forall i, j | 0 <= i < |ab| && 0 <= j < |ab| && ab[i].path <= ab[j].path
      ensures i <= j
    {
      if i < |a| && j < |a| {
        assert ab[i] == a[i] && ab[j] == a[j];
      } else if |a| <= i && |a| <= j {
        assert ab[i] == b[i - |a|] && ab[j] == b[j - |a|];
      }
    }
  }

  lemma {:induction false} VisitPreOrdered(exclude: Option<Path -> bool>, n: Node, file: Path, depth: nat)
    requires WellFormed(n)
    ensures PreOrdered(Visit(exclude, n, file, depth))
    decreases n, 1, 0
  {
    if !Excluded(exclude, file) && n.Dir? {
      var rest := VisitEntries(exclude, n, 0, file, depth);
      VisitEntriesPreOrdered(exclude, n, 0, file, depth);
      VisitEntriesBelow(exclude, n, 0, file, depth);
      var head := [Record(file, Lstat(n), depth)];
      forall x, y | x in head && y in rest
        ensures !(y.path <= x.path)
      {
        var k :| 0 <= k < |n.entries| && Below(exclude, file + [n.entries[k].name], depth + 1, y);
        ExtendsAt(file, n.entries[k].name, y.path);
      }
      PreOrderedAppend(head, rest);
    }
  }

  lemma {:induction false} VisitEntriesPreOrdered(exclude: Option<Path -> bool>, d: Node, i: nat, file: Path, depth: nat)
    requires d.Dir? && i <= |d.entries| && WellFormed(d)
    ensures PreOrdered(VisitEntries(exclude, d, i, file, depth))
    decreases d, 0, |d.entries| - i
  {
    if i < |d.entries| {
      var es := d.entries;
      var first := Visit(exclude, es[i].node, file + [es[i].name], depth + 1);
      var rest := VisitEntries(exclude, d, i + 1, file, depth);
      VisitPreOrdered(exclude, es[i].node, file + [es[i].name], depth + 1);
      VisitEntriesPreOrdered(exclude, d, i + 1, file, depth);
      VisitBelow(exclude, es[i].node, file + [es[i].name], depth + 1);
      VisitEntriesBelow(exclude, d, i + 1, file, depth);
      forall x, y | x in first && y in rest
        ensures !(y.path <= x.path)
      {
        var k :| i + 1 <= k < |es| && Below(exclude, file + [es[k].name], depth + 1, y);
        ExtendsAt(file, es[i].name, x.path);
        ExtendsAt(file, es[k].name, y.path);
      }
      PreOrderedAppend(first, rest);
    }
  }

  // ---------------------------------------------------------------------------
  // Recording the records

  /** The paths of the records, in order. */
  function Paths(recs: seq<Record>): (ps: seq<Path>)
    ensures |ps| == |recs| && forall k :: 0 <= k < |recs| ==> ps[k] == recs[k].path
  {
    seq(|recs|, k requires 0 <= k < |recs| => recs[k].path)
  }

  /** How many of the listed paths have a type in `kinds`. */
  function Tally(list: seq<Path>, m: map<Path, Stat>, kinds: set<Kind>): nat
    decreases |list|
  {
    if list == [] then 0
    else
      var p := list[|list| - 1];
      Tally(list[..|list| - 1], m, kinds) + (if p in m && m[p].kind in kinds then 1 else 0)
  }

  lemma {:induction false} TallyFrame(list: seq<Path>, m: map<Path, Stat>, p: Path, s: Stat, kinds: set<Kind>)
    requires p !in list
    ensures Tally(list, m[p := s], kinds) == Tally(list, m, kinds)
    decreases |list|
  {
    if list != [] {
      assert list[|list| - 1] in list;
      assert forall q :: q in list[..|list| - 1] ==> q in list;
      TallyFrame(list[..|list| - 1], m, p, s, kinds);
    }
  }

  /** The list has no repetitions and the map's keys are exactly the listed paths. */
  ghost predicate Indexed(inv: Inventory) {
    && NoDup(inv.pathList)
    && forall p :: p in inv.pathMap <==> p in inv.pathList
  }

  /** Each counter counts the listed paths of its types, and the three add up to the list. */
  ghost predicate Counted(inv: Inventory) {
    var list, m, c := inv.pathList, inv.pathMap, inv.pathStat;
    && c.numDirs == Tally(list, m, {Directory})
    && c.numFiles == Tally(list, m, {RegularFile})
    && c.numOthers == Tally(list, m, {SymbolicLink, Special})
    && c.numDirs + c.numFiles + c.numOthers == |list|
  }

  /** `depthDirs` is the largest number of components of a mapped directory, or 0. */
  ghost predicate DepthTracked(inv: Inventory) {
    var m, d := inv.pathMap, inv.pathStat.depthDirs;
    && (forall p :: p in m && m[p].kind == Directory ==> |p| <= d)
    && (d == 0 || exists p :: p in m && m[p].kind == Directory && |p| == d)
  }

  /** The results of a scan agree with themselves. */
  ghost predicate Accounted(inv: Inventory) {
    Indexed(inv) && Counted(inv) && DepthTracked(inv)
  }

  /** No two records share a path. */
  ghost predicate Unique(recs: seq<Record>) {
    forall i, j :: 0 <= i < j < |recs| ==> recs[i].path != recs[j].path
  }

  lemma PreOrderedUnique(recs: seq<Record>)
    requires PreOrdered(recs)
    ensures Unique(recs)
  {
    forall i, j | 0 <= i < j < |recs| ensures recs[i].path != recs[j].path {
    }
  }

  lemma CaptureIndexed(inv: Inventory, r: Record)
    requires Indexed(inv) && r.path !in inv.pathMap
    ensures Indexed(Capture(inv, r))
  {
  }

  lemma CaptureCounted(inv: Inventory, r: Record)
    requires Counted(inv) && r.path !in inv.pathList
    ensures Counted(Capture(inv, r))
  {
    var inv' := Capture(inv, r);
    var list := inv.pathList;
    assert inv'.pathList[..|list|] == list;
    TallyFrame(list, inv.pathMap, r.path, r.stat, {Directory});
    TallyFrame(list, inv.pathMap, r.path, r.stat, {RegularFile});
    TallyFrame(list, inv.pathMap, r.path, r.stat, {SymbolicLink, Special});
  }

  lemma CaptureDepthTracked(inv: Inventory, r: Record)
    requires DepthTracked(inv) && r.path !in inv.pathMap && r.depth == |r.path|
    ensures DepthTracked(Capture(inv, r))
  {
    var inv' := Capture(inv, r);
    var c, c' := inv.pathStat, inv'.pathStat;
    if c'.depthDirs != 0 && c'.depthDirs != c.depthDirs {
      assert r.path in inv'.pathMap && inv'.pathMap[r.path].kind == Directory;
    } else if c'.depthDirs != 0 {
      var p :| p in inv.pathMap && inv.pathMap[p].kind == Directory && |p| == c.depthDirs;
      assert p in inv'.pathMap && inv'.pathMap[p] == inv.pathMap[p];
    }
  }

  /** Recording records appends their paths to the list, in order. */
  lemma {:induction false} ReplayList(inv: Inventory, recs: seq<Record>)
    ensures Replay(inv, recs).pathList == inv.pathList + Paths(recs)
    decreases |recs|
  {
    if recs == [] {
      assert inv.pathList + Paths(recs) == inv.pathList;
    } else {
      var front := recs[..|recs| - 1];
      ReplayList(inv, front);
      assert Paths(recs) == Paths(front) + [recs[|recs| - 1].path];
    }
  }

  /** Recording records with distinct paths maps each path to its record's stat. */
  lemma {:induction false} ReplayMap(inv: Inventory, recs: seq<Record>)
    requires Unique(recs)
    ensures forall r :: r in recs ==> r.path in Replay(inv, recs).pathMap
    ensures forall r :: r in recs ==> Replay(inv, recs).pathMap[r.path] == r.stat
    decreases |recs|
  {
    if recs != [] {
      var n := |recs|;
      var front := recs[..n - 1];
      var m := Replay(inv, recs).pathMap;
      assert m == Replay(inv, front).pathMap[recs[n - 1].path := recs[n - 1].stat];
      ReplayMap(inv, front);
      forall r | r in recs ensures r.path in m && m[r.path] == r.stat {
        if r != recs[n - 1] {
          var k :| 0 <= k < n && recs[k] == r;
          assert r in front && r.path != recs[n - 1].path;
        }
      }
    }
  }

  /** Recording records with distinct paths from a fresh scanner lists their paths and maps each to its stat. */
  lemma ReplayInitialContents(recs: seq<Record>)
    requires Unique(recs)
    ensures Replay(Initial, recs).pathList == Paths(recs)
    ensures forall r :: r in recs ==> r.path in Replay(Initial, recs).pathMap
    ensures forall r :: r in recs ==> Replay(Initial, recs).pathMap[r.path] == r.stat
  {
    ReplayList(Initial, recs);
    assert Initial.pathList + Paths(recs) == Paths(recs);
    ReplayMap(Initial, recs);
  }

  /** Among records with distinct paths, the last one's path is not among those before it. */
  lemma LastIsNew(recs: seq<Record>)
    requires Unique(recs) && recs != []
    ensures recs[|recs| - 1].path !in Paths(recs[..|recs| - 1])
  {
  }

  /** Recording records with distinct paths, each at the depth of its length, from a fresh scanner
      leaves results that agree with themselves. */
  lemma {:induction false} ReplayInitialAccounted(recs: seq<Record>)
    requires Unique(recs)
    requires forall r :: r in recs ==> r.depth == |r.path|
    ensures Accounted(Replay(Initial, recs))
    decreases |recs|
  {
    if recs != [] {
      var n := |recs|;
      var front, last := recs[..n - 1], recs[n - 1];
      assert forall r :: r in front ==> r in recs;
      UniqueFront(recs);
      ReplayInitialAccounted(front);
      var inv := Replay(Initial, front);
      ReplayList(Initial, front);
      LastIsNew(recs);
      assert last in recs;
      CaptureAccounted(inv, last);
    }
  }

  lemma UniqueFront(recs: seq<Record>)
    requires Unique(recs) && recs != []
    ensures Unique(recs[..|recs| - 1])
  {
    var front := recs[..|recs| - 1];
    forall i, j | 0 <= i < j < |front| ensures front[i].path != front[j].path {
      assert front[i] == recs[i] && front[j] == recs[j];
    }
  }

  /** Recording a new path, at the depth of its length, keeps results that agree with themselves. */
  lemma CaptureAccounted(inv: Inventory, r: Record)
    requires Accounted(inv) && r.path !in inv.pathList && r.depth == |r.path|
    ensures Accounted(Capture(inv, r))
  {
    CaptureIndexed(inv, r);
    CaptureCounted(inv, r);
    CaptureDepthTracked(inv, r);
  }

  /** The records of a scan from the root: distinct paths in pre-order, each at the depth of its length. */
  lemma WalkFacts(exclude: Option<Path -> bool>, root: Node)
    requires WellFormed(root)
    ensures PreOrdered(Visit(exclude, root, [], 0))
    ensures Unique(Visit(exclude, root, [], 0))
    ensures forall r :: r in Visit(exclude, root, [], 0) ==> r.depth == |r.path|
    ensures Accounted(Scanned(exclude, root))
    ensures Scanned(exclude, root).pathList == Paths(Visit(exclude, root, [], 0))
    ensures forall r :: r in Visit(exclude, root, [], 0) ==> Scanned(exclude, root).pathMap[r.path] == r.stat
  {
    var w := Visit(exclude, root, [], 0);
    VisitPreOrdered(exclude, root, [], 0);
    PreOrderedUnique(w);
    VisitBelow(exclude, root, [], 0);
    ReplayInitialContents(w);
    ReplayInitialAccounted(w);
  }

  /** The list of a scan holds the paths of its records, and the map's keys are exactly those paths. */
  lemma WalkIndexed(exclude: Option<Path -> bool>, root: Node)
    requires WellFormed(root)
    ensures Indexed(Scanned(exclude, root))
    ensures Scanned(exclude, root).pathList == Paths(Visit(exclude, root, [], 0))
  {
    WalkFacts(exclude, root);
  }

  // ---------------------------------------------------------------------------
  // The results of a scan

  /** Exclusion prunes before `lstat`: no path at or below an excluded path is recorded, and
      excluding the root leaves the results empty. */
  lemma ScanPrunes(exclude: Option<Path -> bool>, root: Node)
    requires WellFormed(root)
    ensures forall p, k :: p in Scanned(exclude, root).pathMap && 0 <= k <= |p| ==> !Excluded(exclude, p[..k])
    ensures Excluded(exclude, []) ==> Scanned(exclude, root) == Initial
  {
    var w := Visit(exclude, root, [], 0);
    WalkIndexed(exclude, root);
    VisitBelow(exclude, root, [], 0);
    var list := Scanned(exclude, root).pathList;
    forall p, k | p in Scanned(exclude, root).pathMap && 0 <= k <= |p| ensures !Excluded(exclude, p[..k]) {
      var i :| 0 <= i < |list| && list[i] == p;
      assert w[i] in w && w[i].path == p;
      assert Below(exclude, [], 0, w[i]);
    }
  }

  /** Unless the root is excluded, it is recorded first, with its own `lstat`. */
  lemma ScanRootFirst(exclude: Option<Path -> bool>, root: Node)
    requires WellFormed(root)
    requires !Excluded(exclude, [])
    ensures |Scanned(exclude, root).pathList| > 0 && Scanned(exclude, root).pathList[0] == []
    ensures [] in Scanned(exclude, root).pathMap && Scanned(exclude, root).pathMap[[]] == Lstat(root)
  {
    var w := Visit(exclude, root, [], 0);
    WalkFacts(exclude, root);
    assert w[0] in w;
  }

  /** The list is in pre-order: a path comes no later than every path beneath it. */
  lemma ScanPreOrder(exclude: Option<Path -> bool>, root: Node)
    requires WellFormed(root)
    ensures AncestorsFirst(Scanned(exclude, root).pathList)
  {
    WalkFacts(exclude, root);
  }

  /** Each recorded path is recorded once, the map's keys are exactly the listed paths,
      and each maps to the `lstat` of the node that path reaches in the tree. */
  lemma ScanSound(exclude: Option<Path -> bool>, root: Node)
    requires WellFormed(root)
    ensures NoDup(Scanned(exclude, root).pathList)
    ensures forall p :: p in Scanned(exclude, root).pathMap <==> p in Scanned(exclude, root).pathList
    ensures forall p :: p in Scanned(exclude, root).pathMap ==>
      Lookup(root, p).Some? && Scanned(exclude, root).pathMap[p] == Lstat(Lookup(root, p).value)
  {
    var w := Visit(exclude, root, [], 0);
    var inv := Scanned(exclude, root);
    WalkFacts(exclude, root);
    VisitFound(exclude, root, [], 0);
    forall p | p in inv.pathMap ensures Lookup(root, p).Some? && inv.pathMap[p] == Lstat(Lookup(root, p).value) {
      var i :| 0 <= i < |inv.pathList| && inv.pathList[i] == p;
      assert w[i] in w && p[0..] == p;
    }
  }

  /** Every node of the tree is recorded unless it or one of its ancestors is excluded. */
  lemma ScanComplete(exclude: Option<Path -> bool>, root: Node, p: Path)
    requires WellFormed(root)
    requires Lookup(root, p).Some?
    requires forall k :: 0 <= k <= |p| ==> !Excluded(exclude, p[..k])
    ensures p in Scanned(exclude, root).pathMap
  {
    forall k | 0 <= k <= |p| ensures !Excluded(exclude, [] + p[..k]) {
      assert [] + p[..k] == p[..k];
    }
    VisitComplete(exclude, root, [], 0, p);
    WalkFacts(exclude, root);
    var w := Visit(exclude, root, [], 0);
    var r :| r in w && r.path == [] + p;
    assert [] + p == p;
    var i :| 0 <= i < |w| && w[i] == r;
    assert Scanned(exclude, root).pathList[i] == p;
  }

  /** The counters count the listed directories, regular files, and everything else (symbolic
      links included), and together they count the whole list. */
  lemma ScanCounters(exclude: Option<Path -> bool>, root: Node)
    requires WellFormed(root)
    ensures var inv := Scanned(exclude, root);
      && inv.pathStat.numDirs == Tally(inv.pathList, inv.pathMap, {Directory})
      && inv.pathStat.numFiles == Tally(inv.pathList, inv.pathMap, {RegularFile})
      && inv.pathStat.numOthers == Tally(inv.pathList, inv.pathMap, {SymbolicLink, Special})
      && inv.pathStat.numDirs + inv.pathStat.numFiles + inv.pathStat.numOthers == |inv.pathList|
  {
    WalkFacts(exclude, root);
  }

  /** `depthDirs` is the largest number of path components of a recorded directory, 0 when none is deeper. */
  lemma ScanDepth(exclude: Option<Path -> bool>, root: Node)
    requires WellFormed(root)
    ensures var inv := Scanned(exclude, root);
      && (forall p :: p in inv.pathMap && inv.pathMap[p].kind == Directory ==> |p| <= inv.pathStat.depthDirs)
      && (inv.pathStat.depthDirs == 0 ||
          exists p :: p in inv.pathMap && inv.pathMap[p].kind == Directory && |p| == inv.pathStat.depthDirs)
  {
    WalkFacts(exclude, root);
  }
}
