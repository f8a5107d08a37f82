/**
 * Properties of a whole replication step: what `Plan` reports for two
 * inventories, in which order, and what a dry run and a throw change.
 */
module ReplicateLemmas {
  import opened Wrappers
  import opened FileTree
  import opened Seqs
  import opened Fts
  import opened FtsLemmas
  import opened Replicate
  import opened ReplicatePhases

  /** The touch reports that end a live run which did not throw: the written directories, last first. */
  function Touches(src: Inventory, dst: Inventory): seq<Action>
    requires Indexed(src)
  {
    TouchActions(Reversed(TouchedDirs(src.pathList, src.pathMap, dst.pathMap)))
  }

  /** Each touch report is a `TCH DIR` of a listed, non-base source directory that was written into. */
  lemma TouchesPaths(src: Inventory, dst: Inventory)
    requires Indexed(src)
    ensures forall a <- Touches(src, dst) ::
      a.op == TCH && a.tag == DIR && a.path in src.pathList && Touched(a.path, src.pathMap, dst.pathMap)
  {
    var ts := TouchedDirs(src.pathList, src.pathMap, dst.pathMap);
    TouchedDirsPaths(src.pathList, src.pathMap, dst.pathMap);
    ReversedMembers(ts);
    forall a <- Touches(src, dst)
      ensures a.op == TCH && a.tag == DIR && a.path in src.pathList && Touched(a.path, src.pathMap, dst.pathMap)
    {
      var k :| 0 <= k < |Touches(src, dst)| && Touches(src, dst)[k] == a;
      assert Reversed(ts)[k] in ts;
    }
  }

  /** What a whole step reports: the deletions over the reversed destination list, then what the
      copy loop announces over the source list, then, in a live run that did not throw, the touches. */
  function Layout(src: Inventory, dst: Inventory, dryRun: bool): seq<Action>
    requires Indexed(src)
  {
    Condemned(Reversed(dst.pathList), src.pathMap, dst.pathMap)
    + Announcements(src.pathList, src.pathMap, dst.pathMap)
    + (if dryRun || Halted(src.pathList, src.pathMap, dst.pathMap) then [] else Touches(src, dst))
  }

  /** A step reports `Layout`, throws exactly when some source path `Fails`, and in a dry run makes
      no filesystem call. */
  lemma PlanReports(src: Inventory, dst: Inventory, dryRun: bool, hasOSymlink: bool)
    requires Indexed(src)
    ensures Reports(Plan(src, dst, dryRun, hasOSymlink).trace) == Layout(src, dst, dryRun)
    ensures Plan(src, dst, dryRun, hasOSymlink).failed == Halted(src.pathList, src.pathMap, dst.pathMap)
    ensures dryRun ==> Quiet(Plan(src, dst, dryRun, hasOSymlink).trace)
  {
    var del := Deletions(Reversed(dst.pathList), src.pathMap, dst.pathMap, dryRun);
    var c := Copying(src.pathList, src.pathMap, dst.pathMap, dryRun, hasOSymlink);
    DeletionsReports(Reversed(dst.pathList), src.pathMap, dst.pathMap, dryRun);
    CopyingFails(src.pathList, src.pathMap, dst.pathMap, dryRun, hasOSymlink);
    CopyingReports(src.pathList, src.pathMap, dst.pathMap, dryRun, hasOSymlink);
    CopyingTouches(src.pathList, src.pathMap, dst.pathMap, dryRun, hasOSymlink);
    ReportsAppend(del, c.events);
    if !c.failed {
      TouchingReports(c.touches);
      ReportsAppend(del + c.events, Touching(c.touches));
    }
  }

  /** Where the three parts of `r == c + a + t` sit. */
  lemma Sections<T>(r: seq<T>, c: seq<T>, a: seq<T>, t: seq<T>)
    requires r == c + a + t
    ensures |r| == |c| + |a| + |t|
    ensures forall i :: 0 <= i < |c| ==> r[i] == c[i]
    ensures forall i :: |c| <= i < |c| + |a| ==> r[i] == a[i - |c|]
    ensures forall i :: |c| + |a| <= i < |r| ==> r[i] == t[i - |c| - |a|]
  {
  }

  /** The three parts of `Layout`: deletions of destination-only paths, reports on source paths, touches. */
  lemma LayoutParts(src: Inventory, dst: Inventory, dryRun: bool)
    requires Indexed(src)
    ensures var c := Condemned(Reversed(dst.pathList), src.pathMap, dst.pathMap);
      var a := Announcements(src.pathList, src.pathMap, dst.pathMap);
      var r := Layout(src, dst, dryRun);
      && |c| + |a| <= |r|
      && (forall i :: 0 <= i < |c| ==> r[i] == c[i] && r[i].op == DEL && Doomed(r[i].path, src.pathMap, dst.pathMap))
      && (forall i :: |c| <= i < |c| + |a| ==> r[i] == a[i - |c|] && r[i].path in src.pathMap && r[i].op != TCH)
      && (forall i :: |c| + |a| <= i < |r| ==> r[i].op == TCH && r[i].path in src.pathMap)
  {
    var c := Condemned(Reversed(dst.pathList), src.pathMap, dst.pathMap);
    var a := Announcements(src.pathList, src.pathMap, dst.pathMap);
    var t := if dryRun || Halted(src.pathList, src.pathMap, dst.pathMap) then [] else Touches(src, dst);
    var r := Layout(src, dst, dryRun);
    Sections(r, c, a, t);
    forall i | 0 <= i < |c| ensures r[i].op == DEL && Doomed(r[i].path, src.pathMap, dst.pathMap) {
      CondemnedSound(Reversed(dst.pathList), src.pathMap, dst.pathMap);
      assert c[i] in c;
    }
    forall i | |c| <= i < |c| + |a| ensures r[i].path in src.pathMap && r[i].op != TCH {
      AnnouncementsPaths(src.pathList, src.pathMap, dst.pathMap);
      assert a[i - |c|] in a;
    }
    forall i | |c| + |a| <= i < |r| ensures r[i].op == TCH && r[i].path in src.pathMap {
      TouchesPaths(src, dst);
      assert t[i - |c| - |a|] in t;
    }
  }

  /** A dry run reports what a live run reports except the final touches, throws exactly when the
      live run does, reports no touch and makes no filesystem call. */
  lemma PlanDryRun(src: Inventory, dst: Inventory, hasOSymlink: bool)
    requires Indexed(src)
    ensures var live, dry := Plan(src, dst, false, hasOSymlink), Plan(src, dst, true, hasOSymlink);
      && dry.failed == live.failed
      && Reports(live.trace) == Reports(dry.trace) + (if live.failed then [] else Touches(src, dst))
      && Quiet(dry.trace)
      && forall a <- Reports(dry.trace) :: a.op != TCH
  {
    PlanReports(src, dst, false, hasOSymlink);
    PlanReports(src, dst, true, hasOSymlink);
    LayoutDryRun(src, dst);
  }

  /** `Layout` of a live run is that of a dry run followed by the touches, if there is no throw;
      a dry run's has no touch. */
  lemma LayoutDryRun(src: Inventory, dst: Inventory)
    requires Indexed(src)
    ensures Layout(src, dst, false)
         == Layout(src, dst, true) + (if Halted(src.pathList, src.pathMap, dst.pathMap) then [] else Touches(src, dst))
    ensures forall a <- Layout(src, dst, true) :: a.op != TCH
  {
    CondemnedSound(Reversed(dst.pathList), src.pathMap, dst.pathMap);
    AnnouncementsPaths(src.pathList, src.pathMap, dst.pathMap);
  }

  /** Every report is on a non-base path, and no directory update is ever reported. */
  lemma PlanNeverReportsBaseOrDirectoryUpdate(src: Inventory, dst: Inventory, dryRun: bool, hasOSymlink: bool)
    requires Indexed(src)
    ensures forall a <- Reports(Plan(src, dst, dryRun, hasOSymlink).trace) :: a.path != [] && !(a.op == UPD && a.tag == DIR)
  {
    PlanReports(src, dst, dryRun, hasOSymlink);
    CondemnedSound(Reversed(dst.pathList), src.pathMap, dst.pathMap);
    AnnouncementsPaths(src.pathList, src.pathMap, dst.pathMap);
    TouchesPaths(src, dst);
  }

  /** In `Layout`, a destination path the source lacks is reported deleted, with the tag of its type,
      exactly when it is not the base and its type is supported. */
  lemma LayoutDeletesDestinationOnly(src: Inventory, dst: Inventory, dryRun: bool, p: Path)
    requires Indexed(src) && Indexed(dst)
    requires p !in src.pathMap
    ensures forall t :: Action(DEL, t, p) in Layout(src, dst, dryRun) <==>
      p != [] && p in dst.pathMap && TagOf(dst.pathMap[p].kind) == Some(t)
  {
    var list := Reversed(dst.pathList);
    var c := Condemned(list, src.pathMap, dst.pathMap);
    var a := Announcements(src.pathList, src.pathMap, dst.pathMap);
    var t := if dryRun || Halted(src.pathList, src.pathMap, dst.pathMap) then [] else Touches(src, dst);
    assert Layout(src, dst, dryRun) == c + a + t;
    CondemnedMembers(list, src.pathMap, dst.pathMap);
    AnnouncementsPaths(src.pathList, src.pathMap, dst.pathMap);
    TouchesPaths(src, dst);
    ReversedMembers(dst.pathList);
  }

  /** In `Layout`, a destination path the source lacks gets no report but its deletion, and at most one. */
  lemma LayoutDeletesOnce(src: Inventory, dst: Inventory, dryRun: bool, p: Path)
    requires Indexed(src) && Indexed(dst)
    requires p !in src.pathMap
    ensures var r := Layout(src, dst, dryRun);
      && (forall i :: 0 <= i < |r| && r[i].path == p ==> r[i].op == DEL)
      && (forall i, j :: 0 <= i < |r| && 0 <= j < |r| && r[i].path == p && r[j].path == p ==> i == j)
  {
    var list := Reversed(dst.pathList);
    var c := Condemned(list, src.pathMap, dst.pathMap);
    var r := Layout(src, dst, dryRun);
    LayoutParts(src, dst, dryRun);
    CondemnedOrder(list, src.pathMap, dst.pathMap);
    forall i, j | 0 <= i < |r| && 0 <= j < |r| && r[i].path == p && r[j].path == p ensures i == j {
      assert i < |c| && j < |c|;
      if i < j {
        assert Before(list, c[i].path, c[j].path);
        ReversedBefore(dst.pathList, p, p);
        assert false;
      } else if j < i {
        assert Before(list, c[j].path, c[i].path);
        ReversedBefore(dst.pathList, p, p);
        assert false;
      }
    }
  }

  /** A destination path the source lacks is reported deleted, with the tag of its type, exactly when
      it is not the base and its type is supported; it gets no other report and is reported only once. */
  lemma PlanDeletesDestinationOnly(src: Inventory, dst: Inventory, dryRun: bool, hasOSymlink: bool, p: Path)
    requires Indexed(src) && Indexed(dst)
    requires p !in src.pathMap
    ensures var r := Reports(Plan(src, dst, dryRun, hasOSymlink).trace);
      && (forall t :: Action(DEL, t, p) in r <==> p != [] && p in dst.pathMap && TagOf(dst.pathMap[p].kind) == Some(t))
      && (forall i :: 0 <= i < |r| && r[i].path == p ==> r[i].op == DEL)
      && (forall i, j :: 0 <= i < |r| && 0 <= j < |r| && r[i].path == p && r[j].path == p ==> i == j)
  {
    PlanReports(src, dst, dryRun, hasOSymlink);
    LayoutDeletesDestinationOnly(src, dst, dryRun, p);
    LayoutDeletesOnce(src, dst, dryRun, p);
  }

  /** In `Layout`, when the destination list puts ancestors first, a destination-only path's
      deletion comes before that of any destination-only directory above it. */
  lemma LayoutDeletesDescendantsFirst(src: Inventory, dst: Inventory, dryRun: bool)
    requires Indexed(src) && AncestorsFirst(dst.pathList)
    ensures var r := Layout(src, dst, dryRun);
      forall i, j :: (0 <= i < |r| && 0 <= j < |r| && r[i].path !in src.pathMap && r[j].path !in src.pathMap
        && r[i].path < r[j].path) ==> j < i
  {
    var c := Condemned(Reversed(dst.pathList), src.pathMap, dst.pathMap);
    LayoutParts(src, dst, dryRun);
    CondemnedDescendantsFirst(dst.pathList, src.pathMap, dst.pathMap);
    assert forall i :: 0 <= i < |Layout(src, dst, dryRun)| && Layout(src, dst, dryRun)[i].path !in src.pathMap ==> i < |c|;
  }

  /** The deletions over a reversed ancestors-first list put every descendant before its ancestors. */
  lemma CondemnedDescendantsFirst(list: seq<Path>, srcMap: map<Path, Stat>, dstMap: map<Path, Stat>)
    requires AncestorsFirst(list)
    ensures var c := Condemned(Reversed(list), srcMap, dstMap);
      forall i, j :: 0 <= i < |c| && 0 <= j < |c| && c[i].path < c[j].path ==> j < i
  {
    var c := Condemned(Reversed(list), srcMap, dstMap);
    CondemnedOrder(Reversed(list), srcMap, dstMap);
    forall i, j | 0 <= i < |c| && 0 <= j < |c| && c[i].path < c[j].path
      ensures j < i
    {
      if i < j {
        assert Before(Reversed(list), c[i].path, c[j].path);
        ReversedBefore(list, c[i].path, c[j].path);
        AncestorsNotAfter(list, c[i].path, c[j].path);
        assert false;
      }
    }
  }

  /** In a list that puts ancestors first, a path never comes after a proper descendant of it. */
  lemma AncestorsNotAfter(list: seq<Path>, x: Path, y: Path)
    requires AncestorsFirst(list) && Before(list, y, x)
    ensures !(x < y)
  {
    var a, b :| 0 <= a < b < |list| && list[a] == y && list[b] == x;
    assert !(list[b] <= list[a]);
  }

  /** For a scanned destination tree, a destination-only path's deletion is reported before that of
      any destination-only directory above it. */
  lemma PlanDeletesDescendantsFirst(src: Inventory, exclude: Option<Path -> bool>, dstTree: Node, dryRun: bool, hasOSymlink: bool)
    requires Indexed(src) && WellFormed(dstTree)
    ensures var r := Reports(Plan(src, Scanned(exclude, dstTree), dryRun, hasOSymlink).trace);
      forall i, j :: (0 <= i < |r| && 0 <= j < |r| && r[i].path !in src.pathMap && r[j].path !in src.pathMap
        && r[i].path < r[j].path) ==> j < i
  {
    ScanPreOrder(exclude, dstTree);
    PlanReports(src, Scanned(exclude, dstTree), dryRun, hasOSymlink);
    LayoutDeletesDescendantsFirst(src, Scanned(exclude, dstTree), dryRun);
  }

  /** Reports on destination-only paths come before all reports on source paths, and touches come last. */
  lemma PlanPhases(src: Inventory, dst: Inventory, dryRun: bool, hasOSymlink: bool)
    requires Indexed(src)
    ensures var r := Reports(Plan(src, dst, dryRun, hasOSymlink).trace);
      && (forall i, j :: 0 <= i < |r| && 0 <= j < |r| && r[i].path !in src.pathMap && r[j].path in src.pathMap ==> i < j)
      && (forall i, j :: 0 <= i < |r| && 0 <= j < |r| && r[i].op != TCH && r[j].op == TCH ==> i < j)
  {
    PlanReports(src, dst, dryRun, hasOSymlink);
    LayoutParts(src, dst, dryRun);
  }

  /** Without a throw, a source path is reported created, replaced or updated, with the tag of its
      source type, exactly when that is its classification, it is not the base, its type is supported
      and it is not a directory update. */
  lemma PlanReportsSourceOps(src: Inventory, dst: Inventory, dryRun: bool, hasOSymlink: bool, op: Op, t: Tag, p: Path)
    requires Indexed(src)
    requires !Plan(src, dst, dryRun, hasOSymlink).failed
    requires op in {NEW, RPL, UPD}
    ensures Action(op, t, p) in Reports(Plan(src, dst, dryRun, hasOSymlink).trace) <==>
      && p in src.pathMap && p != []
      && op == Classify(p, src.pathMap, dst.pathMap)
      && TagOf(src.pathMap[p].kind) == Some(t)
      && !(t == DIR && op == UPD)
  {
    PlanReports(src, dst, dryRun, hasOSymlink);
    CondemnedSound(Reversed(dst.pathList), src.pathMap, dst.pathMap);
    AnnouncementsMembers(src.pathList, src.pathMap, dst.pathMap);
    TouchesPaths(src, dst);
  }

  /** In `Layout`, every replacement directly follows the deletion of the destination entry it replaces. */
  lemma LayoutReplacements(src: Inventory, dst: Inventory, dryRun: bool)
    requires Indexed(src)
    ensures ReplacementsFollowDeletions(Layout(src, dst, dryRun), dst.pathMap)
  {
    var c := Condemned(Reversed(dst.pathList), src.pathMap, dst.pathMap);
    var a := Announcements(src.pathList, src.pathMap, dst.pathMap);
    var r := Layout(src, dst, dryRun);
    LayoutParts(src, dst, dryRun);
    AnnouncementsReplace(src.pathList, src.pathMap, dst.pathMap);
    forall i | 0 <= i < |r| && r[i].op == RPL
      ensures r[i].path in dst.pathMap && 0 < i && r[i - 1] == Action(DEL, ReplaceTag(dst.pathMap[r[i].path]), r[i].path)
    {
      var k := i - |c|;
      assert r[i] == a[k] && a[k].op == RPL;
      assert r[i - 1] == a[k - 1];
    }
  }

  /** Every replacement directly follows the report of the deletion of the destination entry it
      replaces, and that deletion is tagged `DIR`, `LNK` or `OTH`, never `FIL`. */
  lemma PlanReplacements(src: Inventory, dst: Inventory, dryRun: bool, hasOSymlink: bool)
    requires Indexed(src)
    ensures ReplacementsFollowDeletions(Reports(Plan(src, dst, dryRun, hasOSymlink).trace), dst.pathMap)
    ensures var r := Reports(Plan(src, dst, dryRun, hasOSymlink).trace);
      forall i :: 0 <= i < |r| && r[i].op == RPL ==> 0 < i && r[i - 1].op == DEL && r[i - 1].tag in {DIR, LNK, OTH}
  {
    PlanReports(src, dst, dryRun, hasOSymlink);
    LayoutReplacements(src, dst, dryRun);
  }

  /** The step throws exactly when some source path is a non-skipped entry of an unsupported type;
      a step that throws reports no touch. */
  lemma PlanFailure(src: Inventory, dst: Inventory, dryRun: bool, hasOSymlink: bool)
    requires Indexed(src)
    ensures Plan(src, dst, dryRun, hasOSymlink).failed <==>
      exists p <- src.pathList :: p != [] && Classify(p, src.pathMap, dst.pathMap) != SKP && src.pathMap[p].kind == Special
    ensures Plan(src, dst, dryRun, hasOSymlink).failed ==>
      forall a <- Reports(Plan(src, dst, dryRun, hasOSymlink).trace) :: a.op != TCH
  {
    PlanReports(src, dst, dryRun, hasOSymlink);
    CondemnedSound(Reversed(dst.pathList), src.pathMap, dst.pathMap);
    AnnouncementsPaths(src.pathList, src.pathMap, dst.pathMap);
  }

  /** A source path classified `SKP` gets no report at all. Classification reads the destination as
      scanned before the step, so this holds even when a replaced ancestor directory has already been
      removed from the destination together with that path's destination copy. */
  lemma PlanSkipIsSilent(src: Inventory, dst: Inventory, dryRun: bool, hasOSymlink: bool, p: Path)
    requires Indexed(src)
    requires p in src.pathMap && Classify(p, src.pathMap, dst.pathMap) == SKP
    ensures forall a <- Reports(Plan(src, dst, dryRun, hasOSymlink).trace) :: a.path != p
  {
    PlanReports(src, dst, dryRun, hasOSymlink);
    CondemnedSound(Reversed(dst.pathList), src.pathMap, dst.pathMap);
    AnnouncementsPaths(src.pathList, src.pathMap, dst.pathMap);
    TouchesPaths(src, dst);
  }

  /** The deletion loop deletes nothing when the source has every path. */
  lemma {:induction false} NothingToDelete(list: seq<Path>, srcMap: map<Path, Stat>, dstMap: map<Path, Stat>, dryRun: bool)
    requires forall p <- list :: p in srcMap
    ensures Deletions(list, srcMap, dstMap, dryRun) == []
    decreases |list|
  {
    if list != [] {
      assert list[|list| - 1] in list;
      assert forall p <- list[..|list| - 1] :: p in list;
      NothingToDelete(list[..|list| - 1], srcMap, dstMap, dryRun);
    }
  }

  /** The copy loop does nothing when every source path is skipped. */
  lemma {:induction false} NothingToCopy(list: seq<Path>, srcMap: map<Path, Stat>, dstMap: map<Path, Stat>, dryRun: bool, hasOSymlink: bool)
    requires forall p <- list :: p in srcMap && Classify(p, srcMap, dstMap) == SKP
    ensures Copying(list, srcMap, dstMap, dryRun, hasOSymlink) == Progress([], [], false)
    decreases |list|
  {
    if list != [] {
      assert list[|list| - 1] in list;
      assert forall p <- list[..|list| - 1] :: p in list;
      NothingToCopy(list[..|list| - 1], srcMap, dstMap, dryRun, hasOSymlink);
    }
  }

  /** Two inventories with the same paths, where no source entry has another mode or a later
      modification time than its destination counterpart, give a step that does and reports nothing. */
  lemma PlanIdentical(src: Inventory, dst: Inventory, dryRun: bool, hasOSymlink: bool)
    requires Indexed(src) && Indexed(dst)
    requires forall p :: p in src.pathMap <==> p in dst.pathMap
    requires forall p :: p in src.pathMap && p in dst.pathMap ==>
      src.pathMap[p].mode == dst.pathMap[p].mode && src.pathMap[p].mtime <= dst.pathMap[p].mtime
    ensures Plan(src, dst, dryRun, hasOSymlink) == Outcome([], false)
    ensures Reports(Plan(src, dst, dryRun, hasOSymlink).trace) == []
  {
    ReversedMembers(dst.pathList);
    NothingToDelete(Reversed(dst.pathList), src.pathMap, dst.pathMap, dryRun);
    NothingToCopy(src.pathList, src.pathMap, dst.pathMap, dryRun, hasOSymlink);
  }

  /** Two scanned trees whose types differ at a path always have different modes there, so the path is replaced. */
  lemma TypeChangeReplaces(srcExclude: Option<Path -> bool>, srcTree: Node, dstExclude: Option<Path -> bool>, dstTree: Node, p: Path)
    requires WellFormed(srcTree) && WellFormed(dstTree)
    requires p in Scanned(srcExclude, srcTree).pathMap && p in Scanned(dstExclude, dstTree).pathMap
    requires Scanned(srcExclude, srcTree).pathMap[p].kind != Scanned(dstExclude, dstTree).pathMap[p].kind
    ensures Classify(p, Scanned(srcExclude, srcTree).pathMap, Scanned(dstExclude, dstTree).pathMap) == RPL
  {
    ScanSound(srcExclude, srcTree);
    ScanSound(dstExclude, dstTree);
    LookupWellFormed(srcTree, p);
    LookupWellFormed(dstTree, p);
    KindChangeChangesMode(Lookup(srcTree, p).value, Lookup(dstTree, p).value);
  }

  // Two concrete runs on small inventories.

  /** The source-side accumulators over `list + [p]`, one step at a time. */
  lemma AppendHalted(list: seq<Path>, p: Path, srcMap: map<Path, Stat>, dstMap: map<Path, Stat>)
    requires forall q <- list :: q in srcMap
    requires p in srcMap
    ensures forall q <- list + [p] :: q in srcMap
    ensures Halted(list + [p], srcMap, dstMap) == (Halted(list, srcMap, dstMap) || Fails(p, srcMap, dstMap))
  {
    assert (list + [p])[..|list|] == list;
  }

  lemma AppendAnnouncements(list: seq<Path>, p: Path, srcMap: map<Path, Stat>, dstMap: map<Path, Stat>)
    requires forall q <- list :: q in srcMap
    requires p in srcMap
    ensures forall q <- list + [p] :: q in srcMap
    ensures Announcements(list + [p], srcMap, dstMap)
         == Announcements(list, srcMap, dstMap) + (if Halted(list, srcMap, dstMap) then [] else Announce(p, srcMap, dstMap))
  {
    assert (list + [p])[..|list|] == list;
  }

  lemma AppendTouched(list: seq<Path>, p: Path, srcMap: map<Path, Stat>, dstMap: map<Path, Stat>)
    requires forall q <- list :: q in srcMap
    requires p in srcMap
    ensures forall q <- list + [p] :: q in srcMap
    ensures TouchedDirs(list + [p], srcMap, dstMap)
         == TouchedDirs(list, srcMap, dstMap) + (if Touched(p, srcMap, dstMap) then [Touch(p, srcMap[p].atime, srcMap[p].mtime)] else [])
  {
    assert (list + [p])[..|list|] == list;
  }

  /** The deletions over `list + [p]`, one step at a time. */
  lemma AppendDestination(list: seq<Path>, p: Path, srcMap: map<Path, Stat>, dstMap: map<Path, Stat>)
    ensures Condemned(list + [p], srcMap, dstMap)
         == Condemned(list, srcMap, dstMap) + (if Doomed(p, srcMap, dstMap) then [Action(DEL, TagOf(dstMap[p].kind).value, p)] else [])
  {
    assert (list + [p])[..|list|] == list;
  }

  /** Source: the base directory holding a directory `d` that holds a file `d/f`; destination: only the base. */
  function NewDirSource(d: Name, f: Name, root: Stat, dir: Stat, file: Stat): Inventory {
    Inventory([[], [d], [d, f]], map[[] := root, [d] := dir, [d, f] := file], Counters(2, 1, 0, 1))
  }

  function NewDirDestination(root: Stat): Inventory {
    Inventory([[]], map[[] := root], Counters(1, 0, 0, 0))
  }

  lemma NewDirIndexed(d: Name, f: Name, root: Stat, dir: Stat, file: Stat)
    ensures Indexed(NewDirSource(d, f, root, dir, file))
  {
    var list := NewDirSource(d, f, root, dir, file).pathList;
    assert [d] != [d, f] && [d] != [] && [d, f] != [];
    assert list[0] == [] && list[1] == [d] && list[2] == [d, f];
  }

  lemma NewDirSteps(d: Name, f: Name, root: Stat, dir: Stat, file: Stat)
    requires dir.kind == Directory && file.kind == RegularFile
    ensures var m, n := NewDirSource(d, f, root, dir, file).pathMap, NewDirDestination(root).pathMap;
      && !Fails([], m, n) && !Fails([d], m, n) && !Fails([d, f], m, n)
      && Announce([], m, n) == [] && !Touched([], m, n)
      && Announce([d], m, n) == [Action(NEW, DIR, [d])] && Touched([d], m, n)
      && Announce([d, f], m, n) == [Action(NEW, FIL, [d, f])] && !Touched([d, f], m, n)
  {
    assert [d] != [d, f] && [d] != [] && [d, f] != [];
  }

  lemma NewDirHalted(d: Name, f: Name, root: Stat, dir: Stat, file: Stat)
    requires dir.kind == Directory && file.kind == RegularFile
    ensures !Halted(NewDirSource(d, f, root, dir, file).pathList, NewDirSource(d, f, root, dir, file).pathMap, NewDirDestination(root).pathMap)
  {
    var m, n := NewDirSource(d, f, root, dir, file).pathMap, NewDirDestination(root).pathMap;
    var none: seq<Path> := [];
    NewDirSteps(d, f, root, dir, file);
    AppendHalted(none, [], m, n);
    AppendHalted(none + [[]], [d], m, n);
    AppendHalted(none + [[]] + [[d]], [d, f], m, n);
    assert none + [[]] + [[d]] + [[d, f]] == [[], [d], [d, f]];
  }

  lemma NewDirAnnouncements(d: Name, f: Name, root: Stat, dir: Stat, file: Stat)
    requires dir.kind == Directory && file.kind == RegularFile
    ensures Announcements(NewDirSource(d, f, root, dir, file).pathList, NewDirSource(d, f, root, dir, file).pathMap, NewDirDestination(root).pathMap)
         == [Action(NEW, DIR, [d]), Action(NEW, FIL, [d, f])]
  {
    var m, n := NewDirSource(d, f, root, dir, file).pathMap, NewDirDestination(root).pathMap;
    var none: seq<Path> := [];
    var l1 := none + [[]];
    var l2 := l1 + [[d]];
    NewDirSteps(d, f, root, dir, file);
    AppendHalted(none, [], m, n);
    AppendHalted(l1, [d], m, n);
    AppendAnnouncements(none, [], m, n);
    assert Announcements(l1, m, n) == [];
    AppendAnnouncements(l1, [d], m, n);
    assert Announcements(l2, m, n) == [Action(NEW, DIR, [d])];
    AppendAnnouncements(l2, [d, f], m, n);
    assert l2 + [[d, f]] == [[], [d], [d, f]];
  }

  lemma NewDirTouched(d: Name, f: Name, root: Stat, dir: Stat, file: Stat)
    requires dir.kind == Directory && file.kind == RegularFile
    ensures TouchedDirs(NewDirSource(d, f, root, dir, file).pathList, NewDirSource(d, f, root, dir, file).pathMap, NewDirDestination(root).pathMap)
         == [Touch([d], dir.atime, dir.mtime)]
  {
    var m, n := NewDirSource(d, f, root, dir, file).pathMap, NewDirDestination(root).pathMap;
    var none: seq<Path> := [];
    NewDirSteps(d, f, root, dir, file);
    AppendTouched(none, [], m, n);
    AppendTouched(none + [[]], [d], m, n);
    AppendTouched(none + [[]] + [[d]], [d, f], m, n);
    assert none + [[]] + [[d]] + [[d, f]] == [[], [d], [d, f]];
  }

  lemma NewDirDeletions(root: Stat, srcMap: map<Path, Stat>)
    ensures Condemned(Reversed(NewDirDestination(root).pathList), srcMap, NewDirDestination(root).pathMap) == []
  {
    var none: seq<Path> := [];
    assert Reversed([[]]) == none + [[]];
    AppendDestination(none, [], srcMap, NewDirDestination(root).pathMap);
  }

  /** A new directory holding a new file: both are created, then a live run resets the directory's timestamps. */
  lemma NewDirectoryScenario(d: Name, f: Name, root: Stat, dir: Stat, file: Stat, dryRun: bool, hasOSymlink: bool)
    requires dir.kind == Directory && file.kind == RegularFile
    ensures var src, dst := NewDirSource(d, f, root, dir, file), NewDirDestination(root);
      && !Plan(src, dst, dryRun, hasOSymlink).failed
      && Reports(Plan(src, dst, dryRun, hasOSymlink).trace)
         == [Action(NEW, DIR, [d]), Action(NEW, FIL, [d, f])] + (if dryRun then [] else [Action(TCH, DIR, [d])])
  {
    var src, dst := NewDirSource(d, f, root, dir, file), NewDirDestination(root);
    var t := Touch([d], dir.atime, dir.mtime);
    NewDirIndexed(d, f, root, dir, file);
    NewDirDeletions(root, src.pathMap);
    NewDirHalted(d, f, root, dir, file);
    NewDirAnnouncements(d, f, root, dir, file);
    NewDirTouched(d, f, root, dir, file);
    assert Reversed([t]) == [t];
    assert Touches(src, dst) == [Action(TCH, DIR, [d])];
    var reported := [Action(NEW, DIR, [d]), Action(NEW, FIL, [d, f])] + (if dryRun then [] else [Action(TCH, DIR, [d])]);
    assert Layout(src, dst, dryRun) == [] + reported;
    PlanReports(src, dst, dryRun, hasOSymlink);
  }

  /** An inventory of the base directory and one entry `n` below it. */
  function OneEntry(n: Name, root: Stat, s: Stat): Inventory {
    Inventory([[], [n]], map[[] := root, [n] := s], Counters(1, 1, 0, 0))
  }

  lemma OneEntryIndexed(n: Name, root: Stat, s: Stat)
    ensures Indexed(OneEntry(n, root, s))
  {
    assert [n] != [];
  }

  lemma ModeChangeSteps(n: Name, root: Stat, s: Stat, t: Stat)
    requires s.kind == RegularFile && t.kind == RegularFile && s.mode != t.mode
    ensures var m, k := OneEntry(n, root, s).pathMap, OneEntry(n, root, t).pathMap;
      && !Doomed([], m, k) && !Doomed([n], m, k)
      && !Fails([], m, k) && !Fails([n], m, k)
      && Announce([], m, k) == [] && !Touched([], m, k)
      && Announce([n], m, k) == [Action(DEL, OTH, [n]), Action(RPL, FIL, [n])] && !Touched([n], m, k)
  {
    assert [n] != [];
  }

  lemma ModeChangeDeletions(n: Name, root: Stat, s: Stat, t: Stat)
    requires s.kind == RegularFile && t.kind == RegularFile && s.mode != t.mode
    ensures Condemned(Reversed(OneEntry(n, root, t).pathList), OneEntry(n, root, s).pathMap, OneEntry(n, root, t).pathMap) == []
  {
    var m, k := OneEntry(n, root, s).pathMap, OneEntry(n, root, t).pathMap;
    var none: seq<Path> := [];
    ModeChangeSteps(n, root, s, t);
    assert Reversed([[], [n]]) == none + [[n]] + [[]];
    AppendDestination(none, [n], m, k);
    AppendDestination(none + [[n]], [], m, k);
  }

  lemma ModeChangeCopies(n: Name, root: Stat, s: Stat, t: Stat)
    requires s.kind == RegularFile && t.kind == RegularFile && s.mode != t.mode
    ensures var src, dst := OneEntry(n, root, s), OneEntry(n, root, t);
      && !Halted(src.pathList, src.pathMap, dst.pathMap)
      && Announcements(src.pathList, src.pathMap, dst.pathMap) == [Action(DEL, OTH, [n]), Action(RPL, FIL, [n])]
      && TouchedDirs(src.pathList, src.pathMap, dst.pathMap) == []
  {
    var m, k := OneEntry(n, root, s).pathMap, OneEntry(n, root, t).pathMap;
    var none: seq<Path> := [];
    ModeChangeSteps(n, root, s, t);
    AppendHalted(none, [], m, k);
    AppendHalted(none + [[]], [n], m, k);
    AppendAnnouncements(none, [], m, k);
    AppendAnnouncements(none + [[]], [n], m, k);
    AppendTouched(none, [], m, k);
    AppendTouched(none + [[]], [n], m, k);
    assert none + [[]] + [[n]] == [[], [n]];
  }

  /** A regular file whose permission bits changed is replaced: its deletion is reported tagged `OTH`,
      then its replacement tagged `FIL`. */
  lemma ModeChangeScenario(n: Name, root: Stat, s: Stat, t: Stat, dryRun: bool, hasOSymlink: bool)
    requires s.kind == RegularFile && t.kind == RegularFile && s.mode != t.mode
    ensures var src, dst := OneEntry(n, root, s), OneEntry(n, root, t);
      && !Plan(src, dst, dryRun, hasOSymlink).failed
      && Reports(Plan(src, dst, dryRun, hasOSymlink).trace) == [Action(DEL, OTH, [n]), Action(RPL, FIL, [n])]
  {
    OneEntryIndexed(n, root, s);
    ModeChangeDeletions(n, root, s, t);
    ModeChangeCopies(n, root, s, t);
    PlanReports(OneEntry(n, root, s), OneEntry(n, root, t), dryRun, hasOSymlink);
  }
}
