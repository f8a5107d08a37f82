/**
 * The tree scanner of lib/fts.js: a pre-order walk of a directory tree that
 * records every path it visits in a list and in a path-to-stat map, and keeps
 * counts of directories, files and other entries and the deepest directory.
 *
 * The walk is specified by the pure function `Visit` (the records the walk
 * produces, in order) and `Replay` (what recording them does to the results);
 * the class `FTS` does the same walk by updating its fields in place.
 */
module Fts {
  import opened Wrappers
  import opened FileTree

  /** The aggregate counters of one scan. */
  datatype Counters = Counters(numDirs: nat, numFiles: nat, numOthers: nat, depthDirs: nat)

  /** Everything a scan has accumulated: the visited paths in order, their stats, the counters. */
  datatype Inventory = Inventory(pathList: seq<Path>, pathMap: map<Path, Stat>, pathStat: Counters)

  /** The results of a scanner that has not scanned yet. */
  const Initial := Inventory([], map[], Counters(0, 0, 0, 0))

  /** One visited path: where it is, what `lstat` said, at which depth it was reached. */
  datatype Record = Record(path: Path, stat: Stat, depth: nat)

  /** The exclusion pattern, when there is one, matches `p`. */
  predicate Excluded(exclude: Option<Path -> bool>, p: Path) {
    exclude.Some? && exclude.value(p)
  }

  /** The records the walk produces for node `n` reached as `file` at `depth`, in order. */
  function Visit(exclude: Option<Path -> bool>, n: Node, file: Path, depth: nat): seq<Record>
    decreases n, 1, 0
  {
    if Excluded(exclude, file) then []
    else [Record(file, Lstat(n), depth)] + (if n.Dir? then VisitEntries(exclude, n, 0, file, depth) else [])
  }

  /** The records of the entries of directory `d` from index `i` on. */
  function VisitEntries(exclude: Option<Path -> bool>, d: Node, i: nat, file: Path, depth: nat): seq<Record>
    requires d.Dir? && i <= |d.entries|
    decreases d, 0, |d.entries| - i
  {
    if i == |d.entries| then []
    else
      Visit(exclude, d.entries[i].node, file + [d.entries[i].name], depth + 1)
      + VisitEntries(exclude, d, i + 1, file, depth)
  }

  /** Recording one visited path: map it, append it, count it by type. */
  function Capture(inv: Inventory, r: Record): Inventory {
    var s := inv.pathStat;
    var s' := match r.stat.kind
      case Directory =>
        s.(numDirs := s.numDirs + 1, depthDirs := if s.depthDirs < r.depth then r.depth else s.depthDirs)
      case RegularFile => s.(numFiles := s.numFiles + 1)
      case _ => s.(numOthers := s.numOthers + 1);
    Inventory(inv.pathList + [r.path], inv.pathMap[r.path := r.stat], s')
  }

  /** Recording a sequence of visited paths, first to last. */
  function Replay(inv: Inventory, recs: seq<Record>): Inventory
    decreases |recs|
  {
    if recs == [] then inv else Capture(Replay(inv, recs[..|recs| - 1]), recs[|recs| - 1])
  }

  /** The results of a fresh scanner after scanning `root`. */
  function Scanned(exclude: Option<Path -> bool>, root: Node): Inventory {
    Replay(Initial, Visit(exclude, root, [], 0))
  }

  /** Recording two runs of records one after the other is recording their concatenation. */
  lemma {:induction false} ReplayAppend(inv: Inventory, a: seq<Record>, b: seq<Record>)
    ensures Replay(inv, a + b) == Replay(Replay(inv, a), b)
    decreases |b|
  {
    if b == [] {
      assert a + b == a;
    } else {
      assert (a + b)[..|a + b| - 1] == a + b[..|b| - 1];
      ReplayAppend(inv, a, b[..|b| - 1]);
    }
  }

  /** Visiting a directory records the directory itself, then its entries. */
  lemma ReplayDir(inv: Inventory, exclude: Option<Path -> bool>, n: Node, file: Path, depth: nat)
    requires n.Dir? && !Excluded(exclude, file)
    ensures Replay(inv, Visit(exclude, n, file, depth))
         == Replay(Capture(inv, Record(file, Lstat(n), depth)), VisitEntries(exclude, n, 0, file, depth))
  {
    var here := [Record(file, Lstat(n), depth)];
    assert here[..0] == [];
    ReplayAppend(inv, here, VisitEntries(exclude, n, 0, file, depth));
  }

  /** Visiting the entries from `i` on visits entry `i`, then the rest. */
  lemma ReplayEntry(inv: Inventory, exclude: Option<Path -> bool>, d: Node, i: nat, file: Path, depth: nat)
    requires d.Dir? && i < |d.entries|
    ensures Replay(inv, VisitEntries(exclude, d, i, file, depth))
         == Replay(Replay(inv, Visit(exclude, d.entries[i].node, file + [d.entries[i].name], depth + 1)),
                   VisitEntries(exclude, d, i + 1, file, depth))
  {
    ReplayAppend(inv, Visit(exclude, d.entries[i].node, file + [d.entries[i].name], depth + 1),
                 VisitEntries(exclude, d, i + 1, file, depth));
  }

  /** What an accessor returns: one element for a key, the whole collection without one. */
  datatype Answer<E, C> = One(item: Option<E>) | Whole(all: C)

  class FTS {
    const baseDir: string
    const excludePath: Option<Path -> bool>

    var paths: seq<Path>
    var stats: map<Path, Stat>
    var numDirs: nat
    var numFiles: nat
    var numOthers: nat
    var depthDirs: nat

    /** The results accumulated so far, as one value. */
    function Results(): Inventory
      reads this
    {
      Inventory(paths, stats, Counters(numDirs, numFiles, numOthers, depthDirs))
    }

    /** `baseDir` defaults to ".", the exclusion pattern to none; nothing is recorded yet. */
    constructor (baseDir: Option<string>, excludePath: Option<Path -> bool>)
      ensures this.baseDir == (if baseDir.Some? then baseDir.value else ".")
      ensures this.excludePath == excludePath
      ensures Results() == Initial
    {
      this.baseDir := if baseDir.Some? then baseDir.value else ".";
      this.excludePath := excludePath;
      paths := [];
      stats := map[];
      numDirs, numFiles, numOthers, depthDirs := 0, 0, 0, 0;
    }

    /** Walks the tree below the base directory, whose root is `root`, from path `[]` at depth 0. */
    method Scan(root: Node)
      modifies this
      ensures Results() == Replay(old(Results()), Visit(excludePath, root, [], 0))
    {
      ScanAt(root, [], 0);
    }

    /** Visits `n`, reached as `file` at `depth`, and everything below it. */
    method ScanAt(n: Node, file: Path, depth: nat)
      modifies this
      ensures Results() == Replay(old(Results()), Visit(excludePath, n, file, depth))
      decreases n, 1
    {
      if excludePath.Some? && excludePath.value(file) {
        return;
      }
      var stat := Lstat(n);
      stats := stats[file := stat];
      paths := paths + [file];
      if stat.kind == Directory {
        numDirs := numDirs + 1;
        if depthDirs < depth {
          depthDirs := depth;
        }
        assert Results() == Capture(old(Results()), Record(file, stat, depth));
        ReplayDir(old(Results()), excludePath, n, file, depth);
        ScanEntries(n, file, depth);
      } else {
        if stat.kind == RegularFile {
          numFiles := numFiles + 1;
        } else {
          numOthers := numOthers + 1;
        }
        assert Results() == Capture(old(Results()), Record(file, stat, depth));
        assert [Record(file, stat, depth)][..0] == [];
      }
    }

    /** Visits every entry of directory `d`, reached as `file` at `depth`, in listing order. */
    method ScanEntries(d: Node, file: Path, depth: nat)
      requires d.Dir?
      modifies this
      ensures Results() == Replay(old(Results()), VisitEntries(excludePath, d, 0, file, depth))
      decreases d, 0
    {
      var files := d.entries;
      var i := 0;
      while i < |files|
        invariant 0 <= i <= |files|
        invariant Replay(Results(), VisitEntries(excludePath, d, i, file, depth))
               == Replay(old(Results()), VisitEntries(excludePath, d, 0, file, depth))
      {
        ReplayEntry(Results(), excludePath, d, i, file, depth);
        ScanAt(files[i].node, file + [files[i].name], depth + 1);
        i := i + 1;
      }
    }

    /** The visited path at index `idx` (none when out of range), or the whole list. */
    function PathList(idx: Option<int>): (r: Answer<Path, seq<Path>>)
      reads this
      ensures idx.None? ==> r == Whole(paths)
      ensures idx.Some? ==> r.One? && (r.item.Some? <==> 0 <= idx.value < |paths|)
      ensures idx.Some? && r.item.Some? ==> r.item.value == paths[idx.value]
    {
      match idx
      case None => Whole(paths)
      case Some(i) => One(if 0 <= i < |paths| then Some(paths[i]) else None)
    }

    /** The stat recorded for path `key` (none when it was not visited), or the whole map. */
    function PathMap(key: Option<Path>): (r: Answer<Stat, map<Path, Stat>>)
      reads this
      ensures key.None? ==> r == Whole(stats)
      ensures key.Some? ==> r.One? && (r.item.Some? <==> key.value in stats)
      ensures key.Some? && r.item.Some? ==> r.item.value == stats[key.value]
    {
      match key
      case None => Whole(stats)
      case Some(k) => One(if k in stats then Some(stats[k]) else None)
    }

    /** The counters. */
    function PathStat(): Counters
      reads this
    {
      Counters(numDirs, numFiles, numOthers, depthDirs)
    }
  }
}
