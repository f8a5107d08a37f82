/**
 * The part of a filesystem below one base directory, as an immutable value.
 * The scanner only ever looks at it through `lstat` (which does not follow
 * symbolic links) and `readdir` (which lists the entries of a directory in
 * the order the filesystem returns them); both are read off this value.
 */
module FileTree {
  import opened Wrappers

  type Name = string

  /** A path relative to the base directory, one name per component; the base is `[]`. */
  type Path = seq<Name>

  /** The type of a path as `lstat` classifies it: `isFile`, `isDirectory`, `isSymbolicLink`, or none of them. */
  datatype Kind = RegularFile | Directory | SymbolicLink | Special

  /** The fields of an `lstat` result that the scanner and the planner read. */
  datatype Stat = Stat(kind: Kind, mode: int, atime: int, mtime: int)

  /** A node of the tree; `mode` is the whole `st_mode`, file-format bits included. */
  datatype Node =
    | File(mode: int, atime: int, mtime: int)
    | Dir(mode: int, atime: int, mtime: int, entries: seq<Entry>)
    | Link(mode: int, atime: int, mtime: int)
    | Other(mode: int, atime: int, mtime: int)

  /** One entry of a directory listing, in `readdir` order. */
  datatype Entry = Entry(name: Name, node: Node)

  function KindOf(n: Node): Kind {
    match n
    case File(_, _, _) => RegularFile
    case Dir(_, _, _, _) => Directory
    case Link(_, _, _) => SymbolicLink
    case Other(_, _, _) => Special
  }

  /** `lstat` of a node. */
  function Lstat(n: Node): Stat {
    Stat(KindOf(n), n.mode, n.atime, n.mtime)
  }

  /** The file-format field of `st_mode` (`(mode & S_IFMT) >> 12`). */
  function FormatBits(mode: int): int {
    (mode / 0x1000) % 0x10
  }

  /** `S_IFDIR`, `S_IFREG` and `S_IFLNK` in the file-format field. */
  const DirFormat := 0x4
  const FileFormat := 0x8
  const LinkFormat := 0xA

  /** The file-format bits of `mode` say what `lstat` says the type is. */
  predicate FormatAgrees(k: Kind, mode: int) {
    match k
    case Directory => FormatBits(mode) == DirFormat
    case RegularFile => FormatBits(mode) == FileFormat
    case SymbolicLink => FormatBits(mode) == LinkFormat
    case Special => FormatBits(mode) !in {DirFormat, FileFormat, LinkFormat}
  }

  /** No two entries of one directory listing carry the same name. */
  predicate DistinctNames(es: seq<Entry>) {
    forall i, j :: 0 <= i < j < |es| ==> es[i].name != es[j].name
  }

  /** What every real filesystem guarantees: names are unique within a directory
      and `st_mode` agrees with the type. */
  predicate WellFormed(n: Node) {
    && FormatAgrees(KindOf(n), n.mode)
    && (n.Dir? ==>
          && DistinctNames(n.entries)
          && forall i :: 0 <= i < |n.entries| ==> WellFormed(n.entries[i].node))
  }

  /** The node listed under `name`, the first one if there were several. */
  function Child(es: seq<Entry>, name: Name): (r: Option<Node>)
    ensures r.None? <==> forall i :: 0 <= i < |es| ==> es[i].name != name
    ensures r.Some? ==> exists i :: 0 <= i < |es| && es[i] == Entry(name, r.value)
  {
    if es == [] then None
    else if es[0].name == name then Some(es[0].node)
    else Child(es[1..], name)
  }

  /** The node reached from `n` by following the names of `p`. */
  function Lookup(n: Node, p: Path): Option<Node>
    decreases p
  {
    if p == [] then Some(n)
    else if !n.Dir? then None
    else match Child(n.entries, p[0])
      case None => None
      case Some(c) => Lookup(c, p[1..])
  }

  /** In a listing without repeated names, each entry is the one found under its name. */
  lemma {:induction false} ChildOfDistinct(es: seq<Entry>, i: nat)
    requires DistinctNames(es) && i < |es|
    ensures Child(es, es[i].name) == Some(es[i].node)
  {
    if i > 0 {
      assert DistinctNames(es[1..]) by {
        forall a, b | 0 <= a < b < |es[1..]| ensures es[1..][a].name != es[1..][b].name {
          assert es[1..][a] == es[a + 1] && es[1..][b] == es[b + 1];
        }
      }
      assert es[0].name != es[i].name;
      ChildOfDistinct(es[1..], i - 1);
      assert es[1..][i - 1] == es[i];
    }
  }

  /** Two nodes whose types differ never have the same `st_mode`. */
  lemma KindChangeChangesMode(a: Node, b: Node)
    requires WellFormed(a) && WellFormed(b)
    requires KindOf(a) != KindOf(b)
    ensures a.mode != b.mode
  {
  }

  /** Every node of a well-formed tree is well-formed. */
  lemma {:induction false} LookupWellFormed(n: Node, p: Path)
    requires WellFormed(n) && Lookup(n, p).Some?
    ensures WellFormed(Lookup(n, p).value)
    decreases p
  {
    if p != [] {
      var c := Child(n.entries, p[0]);
      var i :| 0 <= i < |n.entries| && n.entries[i] == Entry(p[0], c.value);
      LookupWellFormed(c.value, p[1..]);
    }
  }
}
