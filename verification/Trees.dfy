/**
 Directory trees as the engine sees them: a map from relative paths to inodes, closed under
 parents. `p <= q` on paths is Dafny's prefix order, so `p < q` says that `p` is an ancestor of `q`.
 */
module Trees {
  import opened Bytes

  type Path = seq<string>

  /** The permission bits `mode & 0o7777` keeps, with the two that `set_mode` strips set apart. */
  datatype Mode = Mode(setuid: bool, setgid: bool, sticky: bool, rwx: nat)
  datatype Time = Time(secs: int, nanos: nat)

  datatype Node =
    | File(content: Buffer, mode: Mode, mtime: Time)
    | Dir(mode: Mode, mtime: Time)
    | Symlink(target: string, mtime: Time)

  /** A node with its identity; `ino` stands for the pair of device and inode number. */
  datatype Obj = Obj(ino: nat, node: Node)

  type Tree = map<Path, Obj>

  const METADATA_DIR := ".ripsync"

  function Parent(p: Path): Path
    requires |p| > 0
  {
    p[..|p| - 1]
  }

  predicate DirAt(t: Tree, p: Path) {
    p in t && t[p].node.Dir?
  }

  /** The directory that holds `p` is really there: the root, or a directory of the tree. */
  predicate Ready(t: Tree, p: Path) {
    |p| > 0 && (|p| == 1 || DirAt(t, Parent(p)))
  }

  predicate Closed(t: Tree) {
    forall p {:trigger Ready(t, p)} :: p in t ==> Ready(t, p)
  }

  /** Paths under the tool's own metadata directory. */
  predicate Hidden(p: Path) {
    |p| > 0 && p[0] == METADATA_DIR
  }

  ghost predicate NothingHidden(t: Tree) {
    forall p :: p in t ==> !Hidden(p)
  }

  /** Names of one file inode show one object: the same identity and the same node. */
  ghost predicate Coherent(t: Tree) {
    forall p, q :: p in t && q in t && t[p].node.File? && t[p].ino == t[q].ino ==> t[p] == t[q]
  }

  /** Every strict ancestor of a path in a closed tree is one of its directories. */
  lemma {:induction false} AncestorIsDir(t: Tree, a: Path, p: Path)
    requires Closed(t) && p in t && 0 < |a| && a < p
    ensures DirAt(t, a)
    decreases |p|
  {
    assert Ready(t, p);
    if |a| < |p| - 1 {
      assert a < Parent(p);
      AncestorIsDir(t, a, Parent(p));
    } else {
      assert a == Parent(p);
    }
  }

  /** Some strict ancestor is a symbolic link. */
  predicate BehindLink(t: Tree, p: Path) {
    exists k :: 0 < k < |p| && p[..k] in t && t[p[..k]].node.Symlink?
  }

  /**
   What looking paths up yields. A lookup follows links on its way, though not in the last place, so
   unlike a walked tree a sight may have something behind a link, and need not be closed.
   */
  type Sight = map<Path, Obj>

  /** Where no link is on the way, looking up finds what a walk finds. */
  ghost predicate Sees(t: Tree, seen: Sight) {
    forall p :: !BehindLink(t, p) ==> (p in seen <==> p in t) && (p in seen && p in t ==> seen[p] == t[p])
  }

  /** No path of `src` is behind a link of `dst`. */
  ghost predicate Unlinked(src: Tree, dst: Tree) {
    forall p :: p in src ==> !BehindLink(dst, p)
  }

  /** A walk finds nothing behind a link. */
  lemma {:induction false} BehindLinkIsAbsent(t: Tree, p: Path)
    requires Closed(t) && BehindLink(t, p)
    ensures p !in t
  {
    if p in t {
      var k :| 0 < k < |p| && p[..k] in t && t[p[..k]].node.Symlink?;
      AncestorIsDir(t, p[..k], p);
    }
  }

  /** Equal up to the modification time of a directory, which writes inside it move. */
  predicate Alike(a: Obj, b: Obj) {
    if a.node.Dir? && b.node.Dir? then a.ino == b.ino && a.node.mode == b.node.mode else a == b
  }

  predicate SameKind(a: Node, b: Node) {
    (a.File? <==> b.File?) && (a.Dir? <==> b.Dir?)
  }

  // ---------- walking ----------

  datatype Kind = KindFile | KindDir | KindSymlink(target: string)
  datatype Entry = Entry(rel: Path, kind: Kind, len: nat, mtime: Time, mode: Mode, ino: nat)

  const NO_MODE := Mode(false, false, false, 511)

  function ModeOf(n: Node): Mode {
    if n.Symlink? then NO_MODE else n.mode
  }

  /** What a walk records of one node: lengths only for files, links never followed. */
  function EntryOf(p: Path, o: Obj): Entry {
    match o.node
    case File(content, mode, mtime) => Entry(p, KindFile, |content|, mtime, mode, o.ino)
    case Dir(mode, mtime) => Entry(p, KindDir, 0, mtime, mode, o.ino)
    case Symlink(target, mtime) => Entry(p, KindSymlink(target), 0, mtime, NO_MODE, o.ino)
  }

  /** No later path is a prefix of an earlier one: parents come first and no path comes twice. */
  ghost predicate ParentsFirst(es: seq<Entry>) {
    forall i, j :: 0 <= i < j < |es| ==> !(es[j].rel <= es[i].rel)
  }

  ghost predicate Lists(es: seq<Entry>, p: Path) {
    exists i :: 0 <= i < |es| && es[i].rel == p
  }

  /** `es` lists exactly the nodes of `t`, parents first. */
  ghost predicate IsWalk(t: Tree, es: seq<Entry>) {
    && (forall i :: 0 <= i < |es| ==> es[i].rel in t && es[i] == EntryOf(es[i].rel, t[es[i].rel]))
    && (forall p {:trigger Lists(es, p)} :: p in t ==> Lists(es, p))
    && ParentsFirst(es)
  }

  // ---------- the order walks are sorted in ----------

  predicate LexLess<T(==)>(less: (T, T) -> bool, a: seq<T>, b: seq<T>) {
    b != [] && (a == [] || less(a[0], b[0]) || (a[0] == b[0] && LexLess(less, a[1..], b[1..])))
  }

  predicate NameLess(a: string, b: string) {
    LexLess((x: char, y: char) => x < y, a, b)
  }

  predicate PathLess(a: Path, b: Path) {
    LexLess(NameLess, a, b)
  }

  lemma {:induction false} LexNeverBelowPrefix<T>(less: (T, T) -> bool, a: seq<T>, b: seq<T>)
    requires b <= a && forall i :: 0 <= i < |b| ==> !less(b[i], b[i])
    ensures !LexLess(less, a, b)
  {
    if b != [] {
      assert a[0] == b[0] && !less(b[0], b[0]);
      LexNeverBelowPrefix(less, a[1..], b[1..]);
    }
  }

  /** A walk sorted by path, component by component, lists parents first and no path twice. */
  lemma {:induction false} SortedWalkIsParentsFirst(es: seq<Entry>)
    requires forall i, j :: 0 <= i < j < |es| ==> PathLess(es[i].rel, es[j].rel)
    ensures ParentsFirst(es)
  {
    forall i, j | 0 <= i < j < |es|
      ensures !(es[j].rel <= es[i].rel)
    {
      if es[j].rel <= es[i].rel {
        forall k | 0 <= k < |es[j].rel|
          ensures !NameLess(es[j].rel[k], es[j].rel[k])
        {
          LexNeverBelowPrefix((x: char, y: char) => x < y, es[j].rel[k], es[j].rel[k]);
        }
        LexNeverBelowPrefix(NameLess, es[i].rel, es[j].rel);
      }
    }
  }
}
