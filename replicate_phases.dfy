/**
 * What each of the three loops of the replication step reports, stated as
 * sequences of actions with the filesystem calls left out, and what a dry
 * run changes about them.
 */
module ReplicatePhases {
  import opened Wrappers
  import opened FileTree
  import opened Seqs
  import opened Replicate

  /** The tag the copy and deletion loops report for an entry of kind `k`; an unsupported type has none. */
  function TagOf(k: Kind): Option<Tag> {
    match k
    case RegularFile => Some(FIL)
    case Directory => Some(DIR)
    case SymbolicLink => Some(LNK)
    case Special => None
  }

  /** A trace of reports only: no filesystem call. */
  predicate Quiet(trace: seq<Event>) {
    forall e <- trace :: e.Report?
  }

  lemma {:induction false} ReportsOfCalls(s: seq<Event>)
    requires forall e <- s :: e.Perform?
    ensures Reports(s) == []
    decreases |s|
  {
    if s != [] {
      assert s[|s| - 1] in s;
      assert forall e <- s[..|s| - 1] :: e in s;
      ReportsOfCalls(s[..|s| - 1]);
    }
  }

  lemma ReportsOfOne(a: Action)
    ensures Reports([Report(a)]) == [a]
  {
    assert [Report(a)][..0] == [];
  }

  /** A report followed by filesystem calls reports just that. */
  lemma ReportThenCalls(a: Action, calls: seq<Event>)
    requires forall e <- calls :: e.Perform?
    ensures Reports([Report(a)] + calls) == [a]
  {
    ReportsAppend([Report(a)], calls);
    ReportsOfCalls(calls);
    ReportsOfOne(a);
  }

  // ---------------------------------------------------------------------------
  // Phase 1

  /** The destination path `p` is deleted: it is not the base, the source lacks it, and its type is supported. */
  predicate Doomed(p: Path, srcMap: map<Path, Stat>, dstMap: map<Path, Stat>) {
    p != [] && p !in srcMap && p in dstMap && dstMap[p].kind != Special
  }

  /** The deletions reported over `list`, in order. */
  function Condemned(list: seq<Path>, srcMap: map<Path, Stat>, dstMap: map<Path, Stat>): seq<Action>
    decreases |list|
  {
    if list == [] then []
    else
      var p := list[|list| - 1];
      Condemned(list[..|list| - 1], srcMap, dstMap)
      + (if Doomed(p, srcMap, dstMap) then [Action(DEL, TagOf(dstMap[p].kind).value, p)] else [])
  }

  /** One destination path: the deletion loop reports its deletion exactly when it is `Doomed`. */
  lemma DeleteStepReports(p: Path, srcMap: map<Path, Stat>, dstMap: map<Path, Stat>, dryRun: bool)
    ensures Reports(DeleteStep(p, srcMap, dstMap, dryRun))
         == (if Doomed(p, srcMap, dstMap) then [Action(DEL, TagOf(dstMap[p].kind).value, p)] else [])
    ensures dryRun ==> Quiet(DeleteStep(p, srcMap, dstMap, dryRun))
  {
    var step := DeleteStep(p, srcMap, dstMap, dryRun);
    if Doomed(p, srcMap, dstMap) {
      var a := Action(DEL, TagOf(dstMap[p].kind).value, p);
      assert step == [Report(a)] + step[1..];
      ReportThenCalls(a, step[1..]);
    }
  }

  /** The deletion loop reports `Condemned`, whether or not it is a dry run; a dry run makes no call. */
  lemma {:induction false} DeletionsReports(list: seq<Path>, srcMap: map<Path, Stat>, dstMap: map<Path, Stat>, dryRun: bool)
    ensures Reports(Deletions(list, srcMap, dstMap, dryRun)) == Condemned(list, srcMap, dstMap)
    ensures dryRun ==> Quiet(Deletions(list, srcMap, dstMap, dryRun))
    decreases |list|
  {
    if list != [] {
      var front, p := list[..|list| - 1], list[|list| - 1];
      DeletionsReports(front, srcMap, dstMap, dryRun);
      DeleteStepReports(p, srcMap, dstMap, dryRun);
      ReportsAppend(Deletions(front, srcMap, dstMap, dryRun), DeleteStep(p, srcMap, dstMap, dryRun));
    }
  }

  /** Every reported deletion is of a listed doomed path, tagged by its destination type. */
  lemma {:induction false} CondemnedSound(list: seq<Path>, srcMap: map<Path, Stat>, dstMap: map<Path, Stat>)
    ensures forall a <- Condemned(list, srcMap, dstMap) ::
      a.op == DEL && a.path in list && Doomed(a.path, srcMap, dstMap) && TagOf(dstMap[a.path].kind) == Some(a.tag)
    decreases |list|
  {
    if list != [] {
      var front := list[..|list| - 1];
      CondemnedSound(front, srcMap, dstMap);
      assert forall p <- front :: p in list;
      assert list[|list| - 1] in list;
    }
  }

  /** Every listed doomed path is reported deleted, tagged by its destination type. */
  lemma {:induction false} CondemnedComplete(list: seq<Path>, srcMap: map<Path, Stat>, dstMap: map<Path, Stat>)
    ensures forall p <- list :: Doomed(p, srcMap, dstMap) ==>
      Action(DEL, TagOf(dstMap[p].kind).value, p) in Condemned(list, srcMap, dstMap)
    decreases |list|
  {
    if list != [] {
      var front := list[..|list| - 1];
      CondemnedComplete(front, srcMap, dstMap);
      assert list == front + [list[|list| - 1]];
    }
  }

  /** A path is reported deleted, with the tag of its destination type, exactly when it is a listed doomed path. */
  lemma CondemnedMembers(list: seq<Path>, srcMap: map<Path, Stat>, dstMap: map<Path, Stat>)
    ensures forall a :: a in Condemned(list, srcMap, dstMap) <==>
      a.op == DEL && a.path in list && Doomed(a.path, srcMap, dstMap) && TagOf(dstMap[a.path].kind) == Some(a.tag)
  {
    CondemnedSound(list, srcMap, dstMap);
    CondemnedComplete(list, srcMap, dstMap);
  }

  /** Deletions are reported in the order of `list`. */
  lemma {:induction false} CondemnedOrder(list: seq<Path>, srcMap: map<Path, Stat>, dstMap: map<Path, Stat>)
    ensures forall i, j :: 0 <= i < j < |Condemned(list, srcMap, dstMap)| ==>
      Before(list, Condemned(list, srcMap, dstMap)[i].path, Condemned(list, srcMap, dstMap)[j].path)
    decreases |list|
  {
    if list != [] {
      var front, p := list[..|list| - 1], list[|list| - 1];
      var r, rf := Condemned(list, srcMap, dstMap), Condemned(front, srcMap, dstMap);
      CondemnedOrder(front, srcMap, dstMap);
      CondemnedMembers(front, srcMap, dstMap);
      forall i, j | 0 <= i < j < |r| ensures Before(list, r[i].path, r[j].path) {
        assert r[i] == rf[i];
        assert rf[i] in rf;
        var k :| 0 <= k < |front| && front[k] == rf[i].path;
        if j < |rf| {
          assert r[j] == rf[j];
          assert Before(front, rf[i].path, rf[j].path);
          var a, b :| 0 <= a < b < |front| && front[a] == rf[i].path && front[b] == rf[j].path;
          assert list[a] == front[a] && list[b] == front[b];
        } else {
          assert r[j].path == p && list[k] == front[k];
        }
      }
    }
  }

  // ---------------------------------------------------------------------------
  // Phase 2

  /** What the copy loop reports for source path `sp`: the deletion of the entry a replacement
      overwrites, then the operation itself unless the type is unsupported or a directory is updated. */
  function Announce(sp: Path, srcMap: map<Path, Stat>, dstMap: map<Path, Stat>): seq<Action>
    requires sp in srcMap
  {
    var op := Classify(sp, srcMap, dstMap);
    var k := srcMap[sp].kind;
    if sp == [] || op == SKP then []
    else
      (if op == RPL then [Action(DEL, ReplaceTag(dstMap[sp]), sp)] else [])
      + (if k == Special || (k == Directory && op == UPD) then [] else [Action(op, TagOf(k).value, sp)])
  }

  /** The copy loop throws at `sp`: an entry of an unsupported type that is not skipped. */
  predicate Fails(sp: Path, srcMap: map<Path, Stat>, dstMap: map<Path, Stat>)
    requires sp in srcMap
  {
    sp != [] && Classify(sp, srcMap, dstMap) != SKP && srcMap[sp].kind == Special
  }

  /** The copy loop writes into directory `sp`, so a live run resets its timestamps at the end. */
  predicate Touched(sp: Path, srcMap: map<Path, Stat>, dstMap: map<Path, Stat>)
    requires sp in srcMap
  {
    sp != [] && Classify(sp, srcMap, dstMap) != SKP && srcMap[sp].kind == Directory
  }

  lemma RemovalReports(sp: Path, d: Stat, dryRun: bool)
    ensures Reports(Removal(sp, d, dryRun)) == [Action(DEL, ReplaceTag(d), sp)]
    ensures dryRun ==> Quiet(Removal(sp, d, dryRun))
  {
    ReportThenCalls(Action(DEL, ReplaceTag(d), sp), if dryRun then [] else [Perform(RemoveTree(sp))]);
  }

  lemma WriteReports(sp: Path, op: Op, s: Stat, dryRun: bool, hasOSymlink: bool)
    ensures var w := Write(sp, op, s, dryRun, hasOSymlink);
      && Reports(w.events)
         == (if s.kind == Special || (s.kind == Directory && op == UPD) then [] else [Action(op, TagOf(s.kind).value, sp)])
      && w.failed == (s.kind == Special)
      && w.touch == (if s.kind == Directory && !dryRun then Some(Touch(sp, s.atime, s.mtime)) else None)
      && (dryRun ==> Quiet(w.events))
  {
    var w := Write(sp, op, s, dryRun, hasOSymlink);
    if s.kind == Directory && op == UPD {
      ReportsOfCalls(w.events);
    } else if s.kind != Special {
      var a := Action(op, TagOf(s.kind).value, sp);
      assert w.events == [Report(a)] + w.events[1..];
      ReportThenCalls(a, w.events[1..]);
    }
  }

  /** One source path: the copy loop reports `Announce`, throws exactly at `Fails`, and queues a
      touch exactly for a `Touched` directory in a live run; a dry run makes no call. */
  lemma StepReports(sp: Path, srcMap: map<Path, Stat>, dstMap: map<Path, Stat>, dryRun: bool, hasOSymlink: bool)
    requires sp in srcMap
    ensures var step := CopyStep(sp, srcMap, dstMap, dryRun, hasOSymlink);
      && Reports(step.events) == Announce(sp, srcMap, dstMap)
      && step.failed == Fails(sp, srcMap, dstMap)
      && step.touch == (if Touched(sp, srcMap, dstMap) && !dryRun then Some(Touch(sp, srcMap[sp].atime, srcMap[sp].mtime)) else None)
      && (dryRun ==> Quiet(step.events))
  {
    var op := Classify(sp, srcMap, dstMap);
    if sp != [] && op != SKP {
      var removal := if op == RPL then Removal(sp, dstMap[sp], dryRun) else [];
      var w := Write(sp, op, srcMap[sp], dryRun, hasOSymlink);
      ReportsAppend(removal, w.events);
      WriteReports(sp, op, srcMap[sp], dryRun, hasOSymlink);
      if op == RPL {
        RemovalReports(sp, dstMap[sp], dryRun);
      } else {
        assert Reports(removal) == [];
      }
    }
  }

  /** Some path of `list` makes the copy loop throw. */
  predicate Halted(list: seq<Path>, srcMap: map<Path, Stat>, dstMap: map<Path, Stat>)
    requires forall p <- list :: p in srcMap
  {
    exists p <- list :: Fails(p, srcMap, dstMap)
  }

  /** What the copy loop reports over `list`, up to and including the first path that throws. */
  function Announcements(list: seq<Path>, srcMap: map<Path, Stat>, dstMap: map<Path, Stat>): seq<Action>
    requires forall p <- list :: p in srcMap
    decreases |list|
  {
    if list == [] then []
    else
      var front := list[..|list| - 1];
      assert forall p <- front :: p in list;
      if Halted(front, srcMap, dstMap) then Announcements(front, srcMap, dstMap)
      else Announcements(front, srcMap, dstMap) + Announce(list[|list| - 1], srcMap, dstMap)
  }

  /** The directories the copy loop writes into, in source order. */
  function TouchedDirs(list: seq<Path>, srcMap: map<Path, Stat>, dstMap: map<Path, Stat>): seq<Touch>
    requires forall p <- list :: p in srcMap
    decreases |list|
  {
    if list == [] then []
    else
      var front, p := list[..|list| - 1], list[|list| - 1];
      assert forall q <- front :: q in list;
      TouchedDirs(front, srcMap, dstMap)
      + (if Touched(p, srcMap, dstMap) then [Touch(p, srcMap[p].atime, srcMap[p].mtime)] else [])
  }

  /** The copy loop throws exactly when a listed path `Fails`. */
  lemma {:induction false} CopyingFails(list: seq<Path>, srcMap: map<Path, Stat>, dstMap: map<Path, Stat>,
                                        dryRun: bool, hasOSymlink: bool)
    requires forall p <- list :: p in srcMap
    ensures Copying(list, srcMap, dstMap, dryRun, hasOSymlink).failed == Halted(list, srcMap, dstMap)
    decreases |list|
  {
    if list != [] {
      var front, last := list[..|list| - 1], list[|list| - 1];
      assert list == front + [last];
      assert forall p <- front :: p in list;
      CopyingFails(front, srcMap, dstMap, dryRun, hasOSymlink);
      StepReports(last, srcMap, dstMap, dryRun, hasOSymlink);
    }
  }

  /** The copy loop reports `Announcements`, in a live run as in a dry run, and a dry run makes no call. */
  lemma {:induction false} CopyingReports(list: seq<Path>, srcMap: map<Path, Stat>, dstMap: map<Path, Stat>,
                                          dryRun: bool, hasOSymlink: bool)
    requires forall p <- list :: p in srcMap
    ensures Reports(Copying(list, srcMap, dstMap, dryRun, hasOSymlink).events) == Announcements(list, srcMap, dstMap)
    ensures dryRun ==> Quiet(Copying(list, srcMap, dstMap, dryRun, hasOSymlink).events)
    decreases |list|
  {
    if list != [] {
      var front, last := list[..|list| - 1], list[|list| - 1];
      assert forall p <- front :: p in list;
      CopyingReports(front, srcMap, dstMap, dryRun, hasOSymlink);
      CopyingFails(front, srcMap, dstMap, dryRun, hasOSymlink);
      var p := Copying(front, srcMap, dstMap, dryRun, hasOSymlink);
      if !p.failed {
        StepReports(last, srcMap, dstMap, dryRun, hasOSymlink);
        ReportsAppend(p.events, CopyStep(last, srcMap, dstMap, dryRun, hasOSymlink).events);
      }
    }
  }

  /** If the copy loop does not throw, a live run queues the touched directories last first; a dry
      run queues nothing. */
  lemma {:induction false} CopyingTouches(list: seq<Path>, srcMap: map<Path, Stat>, dstMap: map<Path, Stat>,
                                          dryRun: bool, hasOSymlink: bool)
    requires forall p <- list :: p in srcMap
    ensures var c := Copying(list, srcMap, dstMap, dryRun, hasOSymlink);
      !c.failed ==> c.touches == (if dryRun then [] else Reversed(TouchedDirs(list, srcMap, dstMap)))
    ensures dryRun ==> Copying(list, srcMap, dstMap, dryRun, hasOSymlink).touches == []
    decreases |list|
  {
    if list != [] {
      var front, last := list[..|list| - 1], list[|list| - 1];
      assert forall p <- front :: p in list;
      CopyingTouches(front, srcMap, dstMap, dryRun, hasOSymlink);
      var p := Copying(front, srcMap, dstMap, dryRun, hasOSymlink);
      if !p.failed {
        var step := CopyStep(last, srcMap, dstMap, dryRun, hasOSymlink);
        StepReports(last, srcMap, dstMap, dryRun, hasOSymlink);
        assert Copying(list, srcMap, dstMap, dryRun, hasOSymlink) == Advance(p, step);
        var ts := TouchedDirs(front, srcMap, dstMap);
        if Touched(last, srcMap, dstMap) {
          var t := Touch(last, srcMap[last].atime, srcMap[last].mtime);
          assert TouchedDirs(list, srcMap, dstMap) == ts + [t];
          ReversedSnoc(ts, t);
        } else {
          assert TouchedDirs(list, srcMap, dstMap) == ts;
        }
      }
    }
  }

  /** What is announced for one path is on that path, which is not the base and not skipped; it is never a touch or a directory update. */
  lemma AnnouncePaths(q: Path, srcMap: map<Path, Stat>, dstMap: map<Path, Stat>)
    requires q in srcMap
    ensures forall a <- Announce(q, srcMap, dstMap) ::
      a.path == q && q != [] && Classify(q, srcMap, dstMap) != SKP && a.op != TCH && !(a.op == UPD && a.tag == DIR)
  {
  }

  /** Every announced path is a listed non-base path that is not skipped; nothing announced is a touch or a directory update. */
  lemma {:induction false} AnnouncementsPaths(list: seq<Path>, srcMap: map<Path, Stat>, dstMap: map<Path, Stat>)
    requires forall p <- list :: p in srcMap
    ensures forall a <- Announcements(list, srcMap, dstMap) ::
      && a.path in list && a.path != [] && Classify(a.path, srcMap, dstMap) != SKP
      && a.op != TCH && !(a.op == UPD && a.tag == DIR)
    decreases |list|
  {
    if list != [] {
      var front, last := list[..|list| - 1], list[|list| - 1];
      assert forall p <- front :: p in list;
      assert last in list;
      AnnouncementsPaths(front, srcMap, dstMap);
      AnnouncePaths(last, srcMap, dstMap);
    }
  }

  /** Without a throw, the copy loop announces exactly what `Announce` gives for each listed path. */
  lemma {:induction false} AnnouncementsUnion(list: seq<Path>, srcMap: map<Path, Stat>, dstMap: map<Path, Stat>)
    requires forall p <- list :: p in srcMap
    requires !Halted(list, srcMap, dstMap)
    ensures forall a :: a in Announcements(list, srcMap, dstMap) <==> exists p <- list :: a in Announce(p, srcMap, dstMap)
    decreases |list|
  {
    if list != [] {
      var front, last := list[..|list| - 1], list[|list| - 1];
      assert list == front + [last];
      assert forall p <- front :: p in list;
      AnnouncementsUnion(front, srcMap, dstMap);
    }
  }

  /** For one path: a creation, replacement or update is announced exactly when that is its
      classification, it is not the base, its type is supported and it is not a directory update;
      a deletion exactly when it is replaced, tagged by the destination's type. */
  lemma AnnounceMembers(q: Path, srcMap: map<Path, Stat>, dstMap: map<Path, Stat>)
    requires q in srcMap
    ensures forall op, t, p :: op in {NEW, RPL, UPD} ==>
      (Action(op, t, p) in Announce(q, srcMap, dstMap) <==>
         p == q && p != [] && op == Classify(p, srcMap, dstMap) && TagOf(srcMap[p].kind) == Some(t)
         && !(t == DIR && op == UPD))
    ensures forall t, p :: Action(DEL, t, p) in Announce(q, srcMap, dstMap) <==>
      p == q && p != [] && Classify(p, srcMap, dstMap) == RPL && t == ReplaceTag(dstMap[p])
  {
  }

  /** Without a throw, the copy loop announces a creation, replacement or update of `p` exactly when
      `p` is a listed non-base path classified so and its type is supported, except directory updates;
      and it announces a deletion of `p` exactly when `p` is replaced, tagged by the destination's type. */
  lemma AnnouncementsMembers(list: seq<Path>, srcMap: map<Path, Stat>, dstMap: map<Path, Stat>)
    requires forall p <- list :: p in srcMap
    requires !Halted(list, srcMap, dstMap)
    ensures forall op, t, p :: op in {NEW, RPL, UPD} ==>
      (Action(op, t, p) in Announcements(list, srcMap, dstMap) <==>
         p in list && p != [] && op == Classify(p, srcMap, dstMap) && TagOf(srcMap[p].kind) == Some(t)
         && !(t == DIR && op == UPD))
    ensures forall t, p :: Action(DEL, t, p) in Announcements(list, srcMap, dstMap) <==>
      p in list && p != [] && Classify(p, srcMap, dstMap) == RPL && t == ReplaceTag(dstMap[p])
  {
    AnnouncementsUnion(list, srcMap, dstMap);
    forall q <- list {
      AnnounceMembers(q, srcMap, dstMap);
    }
  }

  /** Every replacement in `r` directly follows the report of the deletion of the entry it replaces. */
  predicate ReplacementsFollowDeletions(r: seq<Action>, dstMap: map<Path, Stat>) {
    forall i :: 0 <= i < |r| && r[i].op == RPL ==>
      && r[i].path in dstMap && 0 < i
      && r[i - 1] == Action(DEL, ReplaceTag(dstMap[r[i].path]), r[i].path)
  }

  /** In what the copy loop announces, every replacement directly follows the deletion of the entry it replaces. */
  lemma {:induction false} AnnouncementsReplace(list: seq<Path>, srcMap: map<Path, Stat>, dstMap: map<Path, Stat>)
    requires forall p <- list :: p in srcMap
    ensures ReplacementsFollowDeletions(Announcements(list, srcMap, dstMap), dstMap)
    decreases |list|
  {
    if list != [] {
      var front, last := list[..|list| - 1], list[|list| - 1];
      assert forall p <- front :: p in list;
      AnnouncementsReplace(front, srcMap, dstMap);
      var r, rf := Announcements(list, srcMap, dstMap), Announcements(front, srcMap, dstMap);
      forall i | 0 <= i < |r| && r[i].op == RPL
        ensures r[i].path in dstMap && 0 < i && r[i - 1] == Action(DEL, ReplaceTag(dstMap[r[i].path]), r[i].path)
      {
        if i < |rf| {
          assert r[i] == rf[i] && rf[i].op == RPL;
          assert 0 < i && r[i - 1] == rf[i - 1];
        } else {
          var an := Announce(last, srcMap, dstMap);
          assert r == rf + an;
          assert r[i] == an[i - |rf|];
          assert an[0].op == DEL;
          assert i - |rf| == 1;
        }
      }
    }
  }

  /** Every queued touch is for a listed `Touched` directory, and carries its source timestamps. */
  lemma {:induction false} TouchedDirsPaths(list: seq<Path>, srcMap: map<Path, Stat>, dstMap: map<Path, Stat>)
    requires forall p <- list :: p in srcMap
    ensures forall t <- TouchedDirs(list, srcMap, dstMap) ::
      t.path in list && Touched(t.path, srcMap, dstMap) && t == Touch(t.path, srcMap[t.path].atime, srcMap[t.path].mtime)
    decreases |list|
  {
    if list != [] {
      var front := list[..|list| - 1];
      assert forall p <- front :: p in list;
      TouchedDirsPaths(front, srcMap, dstMap);
    }
  }

  // ---------------------------------------------------------------------------
  // Phase 3

  /** One `TCH DIR` report per queued touch, in queue order. */
  function TouchActions(ts: seq<Touch>): (r: seq<Action>)
    ensures |r| == |ts|
    ensures forall i :: 0 <= i < |ts| ==> r[i] == Action(TCH, DIR, ts[i].path)
  {
    seq(|ts|, i requires 0 <= i < |ts| => Action(TCH, DIR, ts[i].path))
  }

  lemma {:induction false} TouchingReports(ts: seq<Touch>)
    ensures Reports(Touching(ts)) == TouchActions(ts)
    decreases |ts|
  {
    if ts != [] {
      var front, t := ts[..|ts| - 1], ts[|ts| - 1];
      TouchingReports(front);
      ReportsAppend(Touching(front), TouchStep(t));
      ReportThenCalls(Action(TCH, DIR, t.path), [Perform(SetTimes(t.path, t.atime, t.mtime))]);
      assert TouchActions(ts) == TouchActions(front) + [Action(TCH, DIR, t.path)];
    }
  }
}
