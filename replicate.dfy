/**
 * The replication step of tasks/grunt-replicate.js: scan the source and the
 * destination tree, then walk the destination inventory backwards deleting
 * what the source no longer has, walk the source inventory forwards creating,
 * replacing and updating, and finally reset the timestamps of the directories
 * that were written into.
 *
 * Each call of the task's `reportOp` is an `Event.Report`; each filesystem
 * call it would make (and skips in a dry run) is an `Event.Perform`. The run
 * is specified by the pure function `Plan` over the two inventories.
 */
module Replicate {
  import opened Wrappers
  import opened FileTree
  import opened Seqs
  import opened Fts
  import opened FtsLemmas

  /** The task options that reach the replication step. */
  datatype Options = Options(
    dryRun: bool,
    regexpExcludeSource: Option<Path -> bool>,
    regexpExcludeDestination: Option<Path -> bool>)

  /** The operation codes; `SKP` is decided for a path but never reported. */
  datatype Op = NEW | RPL | UPD | SKP | TCH | DEL

  /** The type codes of a reported path. */
  datatype Tag = FIL | DIR | LNK | OTH

  /** The arguments of one `reportOp` call. */
  datatype Action = Action(op: Op, tag: Tag, path: Path)

  /** One filesystem call on the destination path `path` (relative to the destination directory). */
  datatype Effect =
    | Unlink(path: Path)                                  // fs.unlinkSync
    | RemoveTree(path: Path)                              // grunt.file.delete(..., { force: true })
    | CopyFile(path: Path)                                // grunt.file.copy from the source path
    | Chmod(path: Path, mode: int)                        // fs.chmodSync
    | SetTimes(path: Path, atime: int, mtime: int)        // fs.utimesSync
    | MakeDir(path: Path, mode: int)                      // fs.mkdirSync
    | CopyLink(path: Path)                                // fs.symlinkSync of the source's fs.readlinkSync
    | LinkChmod(path: Path, mode: int)                    // fs.lchmodSync
    | LinkSetTimes(path: Path, atime: int, mtime: int)    // open with O_SYMLINK, fs.futimesSync, close

  /** What the run does, in order: report an action, or perform a filesystem call. */
  datatype Event = Report(action: Action) | Perform(effect: Effect)

  /** A deferred reset of a destination directory's timestamps to its source's. */
  datatype Touch = Touch(path: Path, atime: int, mtime: int)

  /** The reported actions of a trace, in order. */
  function Reports(trace: seq<Event>): seq<Action>
    decreases |trace|
  {
    if trace == [] then []
    else
      var e := trace[|trace| - 1];
      Reports(trace[..|trace| - 1]) + (if e.Report? then [e.action] else [])
  }

  /** The reports of two traces one after the other. */
  lemma {:induction false} ReportsAppend(a: seq<Event>, b: seq<Event>)
    ensures Reports(a + b) == Reports(a) + Reports(b)
    decreases |b|
  {
    if b == [] {
      assert a + b == a;
    } else {
      assert (a + b)[..|a + b| - 1] == a + b[..|b| - 1];
      ReportsAppend(a, b[..|b| - 1]);
    }
  }

  /** A trace that starts with a report reports something. */
  lemma ReportsHead(trace: seq<Event>)
    requires trace != [] && trace[0].Report?
    ensures Reports(trace) != []
  {
    ReportsAppend([trace[0]], trace[1..]);
    assert [trace[0]] + trace[1..] == trace;
    assert Reports([trace[0]]) == [trace[0].action];
  }

  /** Reporting an action: `reportOp` also sets `anyAction`. */
  function ReportOp(op: Op, tag: Tag, path: Path): seq<Event> {
    [Report(Action(op, tag, path))]
  }

  // ---------------------------------------------------------------------------
  // Phase 1: deletions, over the destination list in reverse

  /** What the deletion loop does for destination path `dp`. */
  function DeleteStep(dp: Path, srcMap: map<Path, Stat>, dstMap: map<Path, Stat>, dryRun: bool): seq<Event> {
    if dp == [] || dp in srcMap || dp !in dstMap then []
    else match dstMap[dp].kind
      case RegularFile => ReportOp(DEL, FIL, dp) + (if dryRun then [] else [Perform(Unlink(dp))])
      case Directory => ReportOp(DEL, DIR, dp) + (if dryRun then [] else [Perform(RemoveTree(dp))])
      case SymbolicLink => ReportOp(DEL, LNK, dp) + (if dryRun then [] else [Perform(Unlink(dp))])
      case Special => []
  }

  /** What the deletion loop does for the paths of `list`, in that order. */
  function Deletions(list: seq<Path>, srcMap: map<Path, Stat>, dstMap: map<Path, Stat>, dryRun: bool): seq<Event>
    decreases |list|
  {
    if list == [] then []
    else Deletions(list[..|list| - 1], srcMap, dstMap, dryRun) + DeleteStep(list[|list| - 1], srcMap, dstMap, dryRun)
  }

  // ---------------------------------------------------------------------------
  // Phase 2: creations, replacements and updates, over the source list

  /** The operation the task decides for source path `sp`, from the destination's pre-scan stat. */
  function Classify(sp: Path, srcMap: map<Path, Stat>, dstMap: map<Path, Stat>): (op: Op)
    requires sp in srcMap
    ensures op in {NEW, RPL, UPD, SKP}
    ensures op == NEW <==> sp !in dstMap
    ensures op == RPL <==> sp in dstMap && srcMap[sp].mode != dstMap[sp].mode
    ensures op == UPD <==> sp in dstMap && srcMap[sp].mode == dstMap[sp].mode && srcMap[sp].mtime > dstMap[sp].mtime
  {
    if sp !in dstMap then NEW
    else if srcMap[sp].mode != dstMap[sp].mode then RPL
    else if srcMap[sp].mtime > dstMap[sp].mtime then UPD
    else SKP
  }

  /** The tag of the deletion that precedes a replacement: the initial `FIL` is always overwritten. */
  function ReplaceTag(s: Stat): Tag {
    if s.kind == Directory then DIR
    else if s.kind == SymbolicLink then LNK
    else OTH
  }

  /** What the copy loop does for one source path: its events, the touch it queues, whether it throws. */
  datatype Step = Step(events: seq<Event>, touch: Option<Touch>, failed: bool)

  function CopyStep(sp: Path, srcMap: map<Path, Stat>, dstMap: map<Path, Stat>, dryRun: bool, hasOSymlink: bool): Step {
    if sp == [] || sp !in srcMap then Step([], None, false)
    else
      var op := Classify(sp, srcMap, dstMap);
      if op == SKP then Step([], None, false)
      else
        Apply(sp, op, srcMap, dstMap, dryRun, hasOSymlink)
  }

  /** Carrying out operation `op`, other than `SKP`, for source path `sp`: a replacement first removes
      the destination entry, then the source entry is written. */
  function Apply(sp: Path, op: Op, srcMap: map<Path, Stat>, dstMap: map<Path, Stat>, dryRun: bool, hasOSymlink: bool): Step
    requires sp in srcMap && (op == RPL ==> sp in dstMap)
  {
    var w := Write(sp, op, srcMap[sp], dryRun, hasOSymlink);
    Step((if op == RPL then Removal(sp, dstMap[sp], dryRun) else []) + w.events, w.touch, w.failed)
  }

  /** Removing the destination entry that a replacement overwrites. */
  function Removal(sp: Path, d: Stat, dryRun: bool): seq<Event> {
    ReportOp(DEL, ReplaceTag(d), sp) + (if dryRun then [] else [Perform(RemoveTree(sp))])
  }

  /** Writing source entry `sp` with stat `s` under operation `op`. */
  function Write(sp: Path, op: Op, s: Stat, dryRun: bool, hasOSymlink: bool): Step {
    match s.kind
    case RegularFile =>
      Step(ReportOp(op, FIL, sp)
             + (if dryRun then [] else [Perform(CopyFile(sp)), Perform(Chmod(sp, s.mode)), Perform(SetTimes(sp, s.atime, s.mtime))]),
           None, false)
    case Directory =>
      Step((if op != UPD then ReportOp(op, DIR, sp) else [])
             + (if dryRun || op == UPD then [] else [Perform(MakeDir(sp, s.mode))]),
           if dryRun then None else Some(Touch(sp, s.atime, s.mtime)), false)
    case SymbolicLink =>
      Step(ReportOp(op, LNK, sp)
             + (if dryRun then []
                else [Perform(CopyLink(sp)), Perform(LinkChmod(sp, s.mode))]
                     + (if hasOSymlink then [Perform(LinkSetTimes(sp, s.atime, s.mtime))] else [])),
           None, false)
    case Special => Step([], None, true)
  }

  /** The copy loop's progress: events so far, the touch queue, whether it has thrown. */
  datatype Progress = Progress(events: seq<Event>, touches: seq<Touch>, failed: bool)

  /** One more source path; `touches.unshift` puts its touch at the front of the queue. */
  function Advance(p: Progress, s: Step): Progress {
    Progress(p.events + s.events, if s.touch.Some? then [s.touch.value] + p.touches else p.touches, s.failed)
  }

  /** The copy loop over the paths of `list`, in order, up to the first one that throws. */
  function Copying(list: seq<Path>, srcMap: map<Path, Stat>, dstMap: map<Path, Stat>, dryRun: bool, hasOSymlink: bool): Progress
    decreases |list|
  {
    if list == [] then Progress([], [], false)
    else
      var p := Copying(list[..|list| - 1], srcMap, dstMap, dryRun, hasOSymlink);
      if p.failed then p else Advance(p, CopyStep(list[|list| - 1], srcMap, dstMap, dryRun, hasOSymlink))
  }

  // ---------------------------------------------------------------------------
  // Phase 3: the touch queue, front to back

  function Touching(touches: seq<Touch>): seq<Event>
    decreases |touches|
  {
    if touches == [] then []
    else Touching(touches[..|touches| - 1]) + TouchStep(touches[|touches| - 1])
  }

  /** Resetting the timestamps of one queued directory. */
  function TouchStep(t: Touch): seq<Event> {
    ReportOp(TCH, DIR, t.path) + [Perform(SetTimes(t.path, t.atime, t.mtime))]
  }

  /** The events of a whole replication step, and whether it threw. */
  datatype Outcome = Outcome(trace: seq<Event>, failed: bool)

  function Plan(src: Inventory, dst: Inventory, dryRun: bool, hasOSymlink: bool): Outcome {
    var deletions := Deletions(Reversed(dst.pathList), src.pathMap, dst.pathMap, dryRun);
    var copied := Copying(src.pathList, src.pathMap, dst.pathMap, dryRun, hasOSymlink);
    if copied.failed then Outcome(deletions + copied.events, true)
    else Outcome(deletions + copied.events + Touching(copied.touches), false)
  }

  // ---------------------------------------------------------------------------
  // The replication step itself

  /**
   * Replicates the source tree `srcTree` (at `src`) onto the destination tree `dstTree` (at `dst`).
   * `hasOSymlink` says whether the platform can set a symbolic link's own timestamps. Returns the
   * events in order, whether an unsupported source type was met (the task throws), and `anyAction`,
   * whose falsity makes the task print "(none)".
   */
  method Run(options: Options, src: string, dst: string, srcTree: Node, dstTree: Node, hasOSymlink: bool)
    returns (trace: seq<Event>, failed: bool, anyAction: bool)
    requires WellFormed(srcTree) && WellFormed(dstTree)
    ensures Outcome(trace, failed)
         == Plan(Scanned(options.regexpExcludeSource, srcTree), Scanned(options.regexpExcludeDestination, dstTree),
                 options.dryRun, hasOSymlink)
    ensures anyAction <==> Reports(trace) != []
  {
    var fts := new FTS(Some(src), options.regexpExcludeSource);
    fts.Scan(srcTree);
    var srcPathList := fts.PathList(None).all;
    var srcPathMap := fts.PathMap(None).all;
    ghost var srcInv := fts.Results();

    fts := new FTS(Some(dst), options.regexpExcludeDestination);
    fts.Scan(dstTree);
    var dstPathList := fts.PathList(None).all;
    var dstPathMap := fts.PathMap(None).all;
    ghost var dstInv := fts.Results();
    ScanSound(options.regexpExcludeSource, srcTree);
    ScanSound(options.regexpExcludeDestination, dstTree);

    // `dstPathList.reverse()` reverses the scanner's own array in place
    fts.paths := Reversed(fts.paths);
    dstPathList := fts.paths;

    assert srcInv == Scanned(options.regexpExcludeSource, srcTree) && srcPathList == srcInv.pathList;
    assert dstInv == Scanned(options.regexpExcludeDestination, dstTree) && dstPathList == Reversed(dstInv.pathList);
    trace, failed, anyAction := Actioning(srcPathList, srcPathMap, dstPathList, dstPathMap, options.dryRun, hasOSymlink);
  }

  /** The three loops, over the source list and the (already reversed) destination list. */
  method Actioning(srcPathList: seq<Path>, srcPathMap: map<Path, Stat>, dstPathList: seq<Path>, dstPathMap: map<Path, Stat>,
                   dryRun: bool, hasOSymlink: bool)
    returns (trace: seq<Event>, failed: bool, anyAction: bool)
    requires forall p <- srcPathList :: p in srcPathMap
    requires forall p <- dstPathList :: p in dstPathMap
    ensures var deletions := Deletions(dstPathList, srcPathMap, dstPathMap, dryRun);
      var copied := Copying(srcPathList, srcPathMap, dstPathMap, dryRun, hasOSymlink);
      && failed == copied.failed
      && trace == deletions + copied.events + (if copied.failed then [] else Touching(copied.touches))
    ensures anyAction <==> Reports(trace) != []
  {
    trace, anyAction := DeletePhase(dstPathList, srcPathMap, dstPathMap, dryRun);
    var copied, touches;
    copied, touches, failed, anyAction :=
      CopyPhase(srcPathList, srcPathMap, dstPathMap, dryRun, hasOSymlink, anyAction);
    ReportsAppend(trace, copied);
    trace := trace + copied;
    if failed {
      assert trace == trace + [];
      return;
    }
    var touched;
    touched, anyAction := TouchPhase(touches, anyAction);
    ReportsAppend(trace, touched);
    trace := trace + touched;
  }

  /** The deletion loop: every destination path, in the order of `list`, that the source lacks. */
  method DeletePhase(list: seq<Path>, srcPathMap: map<Path, Stat>, dstPathMap: map<Path, Stat>, dryRun: bool)
    returns (trace: seq<Event>, anyAction: bool)
    requires forall p <- list :: p in dstPathMap
    ensures trace == Deletions(list, srcPathMap, dstPathMap, dryRun)
    ensures anyAction <==> Reports(trace) != []
  {
    anyAction := false;
    trace := [];
    var i := 0;
    while i < |list|
      invariant 0 <= i <= |list|
      invariant trace == Deletions(list[..i], srcPathMap, dstPathMap, dryRun)
      invariant anyAction <==> Reports(trace) != []
    {
      ReportsAppend(trace, DeleteStep(list[i], srcPathMap, dstPathMap, dryRun));
      trace, anyAction := DeleteEntry(list[i], srcPathMap, dstPathMap, dryRun, trace, anyAction);
      assert list[..i + 1] == list[..i] + [list[i]];
      i := i + 1;
    }
    assert list[..i] == list;
  }

  /** The copy loop over the source paths of `list`, up to the first unsupported type. */
  method CopyPhase(list: seq<Path>, srcPathMap: map<Path, Stat>, dstPathMap: map<Path, Stat>, dryRun: bool, hasOSymlink: bool,
                   anyAction: bool)
    returns (trace: seq<Event>, touches: seq<Touch>, failed: bool, anyAction': bool)
    requires forall p <- list :: p in srcPathMap
    ensures Copying(list, srcPathMap, dstPathMap, dryRun, hasOSymlink) == Progress(trace, touches, failed)
    ensures anyAction' <==> anyAction || Reports(trace) != []
  {
    trace, touches, failed, anyAction' := [], [], false, anyAction;
    var j := 0;
    while j < |list|
      invariant 0 <= j <= |list|
      invariant Copying(list[..j], srcPathMap, dstPathMap, dryRun, hasOSymlink) == Progress(trace, touches, false)
      invariant anyAction' <==> anyAction || Reports(trace) != []
    {
      ReportsAppend(trace, CopyStep(list[j], srcPathMap, dstPathMap, dryRun, hasOSymlink).events);
      CopyStepReported(list[j], srcPathMap, dstPathMap, dryRun, hasOSymlink);
      trace, touches, failed, anyAction' :=
        CopyEntry(list[j], srcPathMap, dstPathMap, dryRun, hasOSymlink, trace, touches, anyAction');
      assert list[..j + 1] == list[..j] + [list[j]];
      if failed {
        CopyingStops(list, j + 1, srcPathMap, dstPathMap, dryRun, hasOSymlink);
        return;
      }
      j := j + 1;
    }
    assert list[..j] == list;
  }

  /** The touch loop: reset the timestamps of the queued directories, front to back. */
  method TouchPhase(touches: seq<Touch>, anyAction: bool) returns (trace: seq<Event>, anyAction': bool)
    ensures trace == Touching(touches)
    ensures anyAction' <==> anyAction || Reports(trace) != []
  {
    trace, anyAction' := [], anyAction;
    var k := 0;
    while k < |touches|
      invariant 0 <= k <= |touches|
      invariant trace == Touching(touches[..k])
      invariant anyAction' <==> anyAction || Reports(trace) != []
    {
      ghost var before := trace;
      trace, anyAction' := Emit(trace, TCH, DIR, touches[k].path);
      trace := FsCall(trace, SetTimes(touches[k].path, touches[k].atime, touches[k].mtime));
      assert trace == before + TouchStep(touches[k]);
      ReportsAppend(before, TouchStep(touches[k]));
      ReportsHead(TouchStep(touches[k]));
      assert touches[..k + 1][..k] == touches[..k];
      k := k + 1;
    }
    assert touches[..k] == touches;
  }

  /** The body of the deletion loop for destination path `dp`. */
  method DeleteEntry(dp: Path, srcPathMap: map<Path, Stat>, dstPathMap: map<Path, Stat>, dryRun: bool,
                     trace: seq<Event>, anyAction: bool)
    returns (trace': seq<Event>, anyAction': bool)
    requires dp in dstPathMap
    ensures trace' == trace + DeleteStep(dp, srcPathMap, dstPathMap, dryRun)
    ensures anyAction' <==> anyAction || Reports(DeleteStep(dp, srcPathMap, dstPathMap, dryRun)) != []
  {
    trace', anyAction' := trace, anyAction;
    if dp == [] {
      return;
    }
    if dp !in srcPathMap {
      if dstPathMap[dp].kind == RegularFile {
        trace', anyAction' := Emit(trace', DEL, FIL, dp);
        if !dryRun {
          trace' := FsCall(trace', Unlink(dp));
        }
      } else if dstPathMap[dp].kind == Directory {
        trace', anyAction' := Emit(trace', DEL, DIR, dp);
        if !dryRun {
          trace' := FsCall(trace', RemoveTree(dp));
        }
      } else if dstPathMap[dp].kind == SymbolicLink {
        trace', anyAction' := Emit(trace', DEL, LNK, dp);
        if !dryRun {
          trace' := FsCall(trace', Unlink(dp));
        }
      }
    }
  }

  /** The body of the copy loop for source path `sp`; `failed` is the task's throw. */
  method CopyEntry(sp: Path, srcPathMap: map<Path, Stat>, dstPathMap: map<Path, Stat>, dryRun: bool, hasOSymlink: bool,
                   trace: seq<Event>, touches: seq<Touch>, anyAction: bool)
    returns (trace': seq<Event>, touches': seq<Touch>, failed: bool, anyAction': bool)
    requires sp in srcPathMap
    ensures var step := CopyStep(sp, srcPathMap, dstPathMap, dryRun, hasOSymlink);
      && trace' == trace + step.events
      && touches' == (if step.touch.Some? then [step.touch.value] + touches else touches)
      && failed == step.failed
      && (anyAction' <==> anyAction || Announced(sp, srcPathMap, dstPathMap))
  {
    trace', touches', failed, anyAction' := trace, touches, false, anyAction;
    if sp == [] {
      return;
    }
    var op := NEW;
    if sp in dstPathMap {
      if srcPathMap[sp].mode != dstPathMap[sp].mode {
        op := RPL;
      } else if srcPathMap[sp].mtime > dstPathMap[sp].mtime {
        op := UPD;
      } else {
        op := SKP;
      }
    }
    assert op == Classify(sp, srcPathMap, dstPathMap);
    if op == SKP {
      return;
    }
    trace', touches', failed, anyAction' := ApplyEntry(sp, op, srcPathMap, dstPathMap, dryRun, hasOSymlink, trace, touches, anyAction);
  }

  /** Carrying out `op` for `sp` once it is known not to be `SKP`. */
  method ApplyEntry(sp: Path, op: Op, srcPathMap: map<Path, Stat>, dstPathMap: map<Path, Stat>, dryRun: bool, hasOSymlink: bool,
                    trace: seq<Event>, touches: seq<Touch>, anyAction: bool)
    returns (trace': seq<Event>, touches': seq<Touch>, failed: bool, anyAction': bool)
    requires sp in srcPathMap && (op == RPL ==> sp in dstPathMap)
    ensures var step := Apply(sp, op, srcPathMap, dstPathMap, dryRun, hasOSymlink);
      && trace' == trace + step.events
      && touches' == (if step.touch.Some? then [step.touch.value] + touches else touches)
      && failed == step.failed
      && (anyAction' <==> anyAction || op == RPL
                          || (srcPathMap[sp].kind != Special && !(srcPathMap[sp].kind == Directory && op == UPD)))
  {
    ghost var w := Write(sp, op, srcPathMap[sp], dryRun, hasOSymlink);
    if op == RPL {
      trace', anyAction' := RemoveEntry(sp, dstPathMap[sp], dryRun, trace);
      ghost var mid := trace';
      trace', touches', failed, anyAction' := WriteEntry(sp, op, srcPathMap[sp], dryRun, hasOSymlink, trace', touches, anyAction');
      assert trace' == mid + w.events == trace + (Removal(sp, dstPathMap[sp], dryRun) + w.events);
    } else {
      trace', touches', failed, anyAction' := WriteEntry(sp, op, srcPathMap[sp], dryRun, hasOSymlink, trace, touches, anyAction);
      assert Apply(sp, op, srcPathMap, dstPathMap, dryRun, hasOSymlink).events == [] + w.events == w.events;
    }
  }

  /** Removing the destination entry before a replacement: the tag starts as `FIL` and is always overwritten. */
  method RemoveEntry(sp: Path, d: Stat, dryRun: bool, trace: seq<Event>) returns (trace': seq<Event>, anyAction': bool)
    ensures trace' == trace + Removal(sp, d, dryRun) && anyAction'
  {
    var tag := FIL;
    if d.kind == Directory {
      tag := DIR;
    } else if d.kind == SymbolicLink {
      tag := LNK;
    } else {
      tag := OTH;
    }
    trace', anyAction' := Emit(trace, DEL, tag, sp);
    if !dryRun {
      trace' := FsCall(trace', RemoveTree(sp));
    }
  }

  /** Writing source entry `sp` once its operation `op` is known not to be `SKP`. */
  method WriteEntry(sp: Path, op: Op, s: Stat, dryRun: bool, hasOSymlink: bool,
                    trace: seq<Event>, touches: seq<Touch>, anyAction: bool)
    returns (trace': seq<Event>, touches': seq<Touch>, failed: bool, anyAction': bool)
    ensures var w := Write(sp, op, s, dryRun, hasOSymlink);
      && trace' == trace + w.events
      && touches' == (if w.touch.Some? then [w.touch.value] + touches else touches)
      && failed == w.failed
      && (anyAction' <==> anyAction || (s.kind != Special && !(s.kind == Directory && op == UPD)))
  {
    trace', touches', failed, anyAction' := trace, touches, false, anyAction;
    if s.kind == RegularFile {
      trace', anyAction' := Emit(trace', op, FIL, sp);
      if !dryRun {
        trace' := FsCall(trace', CopyFile(sp));
        trace' := FsCall(trace', Chmod(sp, s.mode));
        trace' := FsCall(trace', SetTimes(sp, s.atime, s.mtime));
      }
    } else if s.kind == Directory {
      if op != UPD {
        trace', anyAction' := Emit(trace', op, DIR, sp);
      }
      if !dryRun {
        if op != UPD {
          trace' := FsCall(trace', MakeDir(sp, s.mode));
        }
        touches' := [Touch(sp, s.atime, s.mtime)] + touches';
      }
    } else if s.kind == SymbolicLink {
      trace', anyAction' := Emit(trace', op, LNK, sp);
      if !dryRun {
        trace' := FsCall(trace', CopyLink(sp));
        trace' := FsCall(trace', LinkChmod(sp, s.mode));
        if hasOSymlink {
          trace' := FsCall(trace', LinkSetTimes(sp, s.atime, s.mtime));
        }
      }
    } else {
      // "unknown file type (only file, directory and symbolic link supported)"
      failed := true;
    }
  }

  /** Whether the copy loop reports anything for source path `sp`: it is replaced, or it is neither
      skipped, nor of an unsupported type, nor a directory being updated. */
  predicate Announced(sp: Path, srcMap: map<Path, Stat>, dstMap: map<Path, Stat>)
    requires sp in srcMap
  {
    var op := Classify(sp, srcMap, dstMap);
    sp != [] && (op == RPL || (op != SKP && srcMap[sp].kind != Special && !(srcMap[sp].kind == Directory && op == UPD)))
  }

  /** The copy loop reports something for `sp` exactly when `Announced` says so. */
  lemma CopyStepReported(sp: Path, srcMap: map<Path, Stat>, dstMap: map<Path, Stat>, dryRun: bool, hasOSymlink: bool)
    requires sp in srcMap
    ensures Reports(CopyStep(sp, srcMap, dstMap, dryRun, hasOSymlink).events) != [] <==> Announced(sp, srcMap, dstMap)
  {
    var events := CopyStep(sp, srcMap, dstMap, dryRun, hasOSymlink).events;
    var op := Classify(sp, srcMap, dstMap);
    if sp != [] && op != SKP {
      var k := srcMap[sp].kind;
      var w := Write(sp, op, srcMap[sp], dryRun, hasOSymlink);
      var pre := if op == RPL then Removal(sp, dstMap[sp], dryRun) else [];
      assert events == pre + w.events;
      if op == RPL {
        assert events[0] == pre[0];
        ReportsHead(events);
      } else if k == Special || (k == Directory && op == UPD) {
        assert events == [];
      } else {
        assert events[0] == w.events[0];
        ReportsHead(events);
      }
    }
  }

  /** `reportOp`: append the report and set `anyAction`. */
  method Emit(trace: seq<Event>, op: Op, tag: Tag, path: Path) returns (trace': seq<Event>, anyAction: bool)
    ensures trace' == trace + ReportOp(op, tag, path) && anyAction
  {
    trace' := trace + ReportOp(op, tag, path);
    anyAction := true;
  }

  /** A filesystem call, which adds no report. */
  method FsCall(trace: seq<Event>, e: Effect) returns (trace': seq<Event>)
    ensures trace' == trace + [Perform(e)]
  {
    trace' := trace + [Perform(e)];
  }

  /** Once the copy loop has thrown, later paths change nothing. */
  lemma {:induction false} CopyingStops(list: seq<Path>, k: nat, srcMap: map<Path, Stat>, dstMap: map<Path, Stat>, dryRun: bool, hasOSymlink: bool)
    requires k <= |list| && Copying(list[..k], srcMap, dstMap, dryRun, hasOSymlink).failed
    ensures Copying(list, srcMap, dstMap, dryRun, hasOSymlink) == Copying(list[..k], srcMap, dstMap, dryRun, hasOSymlink)
    decreases |list| - k
  {
    if k < |list| {
      assert list[..k + 1][..k] == list[..k];
      CopyingStops(list, k + 1, srcMap, dstMap, dryRun, hasOSymlink);
    } else {
      assert list[..k] == list;
    }
  }
}
