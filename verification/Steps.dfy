/**
 What single file-system steps do to a tree, and the invariant a mirror run keeps: every source path
 is either already written or still what it was, and nothing else has appeared.
 */
module Steps {
  import opened Trees

  /** Creating or removing an entry stamps the directory that holds it. */
  function Touch(t: Tree, p: Path, now: Time): Tree
    requires |p| > 0
  {
    if DirAt(t, Parent(p)) then t[Parent(p) := Stamped(t[Parent(p)], now)] else t
  }

  function Stamped(o: Obj, mtime: Time): Obj
    requires o.node.Dir?
  {
    Obj(o.ino, Dir(o.node.mode, mtime))
  }

  /** Outside the subtree at `p`, `u` has the paths of `t`, alike. */
  ghost predicate Outside(t: Tree, u: Tree, p: Path) {
    forall q :: !(p <= q) ==> (q in t <==> q in u) && (q in t && q in u ==> Alike(t[q], u[q]))
  }

  ghost predicate Removed(t: Tree, u: Tree, p: Path) {
    && Outside(t, u, p)
    && forall q :: q in u ==> !(p <= q)
  }

  /** Below `p` things may have gone, in part or altogether; nothing has come. */
  ghost predicate Shrunk(t: Tree, u: Tree, p: Path) {
    && Outside(t, u, p)
    && forall q :: q in u && p <= q ==> q in t && Alike(u[q], t[q])
  }

  /** What is above, beside and below `p` is as it was. */
  ghost predicate OnlyAt(t: Tree, u: Tree, p: Path) {
    forall q :: q != p ==> (q in t <==> q in u) && (q in t && q in u ==> Alike(t[q], u[q]))
  }

  ghost predicate Placed(t: Tree, u: Tree, p: Path, o: Obj) {
    && Outside(t, u, p)
    && p in u && u[p] == o
    && forall q :: q in u && p <= q ==> q == p
  }

  /** `p` is a directory of mode `mode`; what was below it, if it was one already, still is. */
  ghost predicate MadeDir(t: Tree, u: Tree, p: Path, mode: Mode) {
    && Outside(t, u, p)
    && DirAt(u, p) && u[p].node.mode == mode
    && forall q :: p < q ==> (q in t <==> q in u) && (q in t && q in u ==> Alike(t[q], u[q]))
  }

  function WithoutSubtree(t: Tree, p: Path): Tree {
    map q | q in t && !(p <= q) :: t[q]
  }

  lemma {:induction false} TouchKeeps(t: Tree, p: Path, now: Time)
    requires Closed(t) && |p| > 0
    ensures Closed(Touch(t, p, now)) && Touch(t, p, now).Keys == t.Keys
    ensures forall q :: q in t ==> Alike(t[q], Touch(t, p, now)[q])
    ensures p in t ==> Touch(t, p, now)[p] == t[p]
  {
    var u := Touch(t, p, now);
    assert Parent(p) != p;
    forall q | q in u
      ensures Ready(u, q)
    {
      assert Ready(t, q);
    }
  }

  lemma {:induction false} RemoveKeeps(t: Tree, p: Path, now: Time)
    requires Closed(t) && |p| > 0
    ensures Closed(WithoutSubtree(t, p)) && Closed(Touch(WithoutSubtree(t, p), p, now))
    ensures Removed(t, WithoutSubtree(t, p), p) && Removed(t, Touch(WithoutSubtree(t, p), p, now), p)
  {
    var u := WithoutSubtree(t, p);
    forall q | q in u
      ensures Ready(u, q)
    {
      assert Ready(t, q);
      assert |q| > 1 ==> !(p <= Parent(q));
    }
    TouchKeeps(u, p, now);
  }

  /** A source path that is no directory is above `p`. */
  ghost predicate Displaced(src: Tree, p: Path) {
    exists k :: 0 < k < |p| && p[..k] in src && !src[p[..k]].node.Dir?
  }

  /** A file or link has nothing below it, so dropping its name alone drops its subtree. */
  lemma {:induction false} LeafSubtree(t: Tree, p: Path)
    requires Closed(t) && |p| > 0 && !DirAt(t, p)
    ensures forall q :: q in t && p <= q ==> q == p
  {
    forall q | q in t && p <= q
      ensures q == p
    {
      if p < q {
        AncestorIsDir(t, p, q);
      }
    }
  }

  lemma {:induction false} LeafRemoved(t: Tree, u: Tree, p: Path)
    requires Closed(t) && |p| > 0 && !DirAt(t, p) && Removed(t, u, p)
    ensures OnlyAt(t, u, p)
  {
    LeafSubtree(t, p);
    forall q | q != p
      ensures (q in t <==> q in u) && (q in t && q in u ==> Alike(t[q], u[q]))
    {
      assert p <= q ==> q !in t && q !in u;
    }
  }

  lemma {:induction false} PlaceCloses(t: Tree, p: Path, o: Obj)
    requires Closed(t) && Ready(t, p) && !DirAt(t, p)
    ensures Closed(t[p := o])
  {
    LeafSubtree(t, p);
    var u := t[p := o];
    forall q | q in u
      ensures Ready(u, q)
    {
      if q != p {
        assert Ready(t, q);
        assert |q| > 1 ==> Parent(q) != p;
      }
    }
  }

  lemma {:induction false} PlaceKeeps(t: Tree, p: Path, o: Obj, now: Time)
    requires Closed(t) && Ready(t, p) && !DirAt(t, p)
    ensures Closed(Touch(t[p := o], p, now))
    ensures Placed(t, Touch(t[p := o], p, now), p, o)
  {
    LeafSubtree(t, p);
    PlaceCloses(t, p, o);
    TouchKeeps(t[p := o], p, now);
  }

  lemma {:induction false} ReadyOutside(t: Tree, u: Tree, p: Path)
    requires Outside(t, u, p) && Ready(t, p)
    ensures Ready(u, p)
  {
    if |p| > 1 {
      assert !(p <= Parent(p));
    }
  }

  /** The name a link is made under before it is moved to `p`; `suffix` tells processes apart. */
  function TmpOf(p: Path, suffix: string): Path
    requires |p| > 0
  {
    Parent(p) + [".ripsync-tmp-" + p[|p| - 1] + "." + suffix]
  }

  lemma {:induction false} TmpIsBeside(p: Path, suffix: string)
    requires |p| > 0
    ensures var q := TmpOf(p, suffix);
            |q| == |p| && Parent(q) == Parent(p) && !(q <= p) && !(p <= q) && (Hidden(q) ==> Hidden(p))
  {
    var q := TmpOf(p, suffix);
    assert |q[|p| - 1]| > |p[|p| - 1]| && |q[|p| - 1]| > |METADATA_DIR|;
    assert q[..|p| - 1] == Parent(p);
    assert |p| > 1 ==> q[0] == p[0];
  }

  lemma {:induction false} ReadyBeside(t: Tree, u: Tree, p: Path, q: Path)
    requires Outside(t, u, q) && Ready(t, p) && |q| == |p|
    ensures Ready(u, p)
  {
    if |p| > 1 {
      assert !(q <= Parent(p));
    }
  }

  lemma {:induction false} RemovedThenPlaced(t: Tree, u: Tree, v: Tree, p: Path, o: Obj)
    requires Outside(t, u, p) && Placed(u, v, p, o)
    ensures Placed(t, v, p, o)
  {
  }

  // ---------- identities, and what cannot be removed ----------

  /** `pinned` paths, which the system refuses to unlink, are still there. */
  ghost predicate KeepsPinned(pinned: set<Path>, t: Tree, u: Tree) {
    forall q :: q in pinned && q in t ==> q in u
  }

  /** Names of one file are still names of one object, and nothing pinned has gone. */
  ghost predicate Undisturbed(pinned: set<Path>, t: Tree, u: Tree) {
    KeepsPinned(pinned, t, u) && (Coherent(t) ==> Coherent(u))
  }

  /** `o` has an identity of its own, or is the object that has it. */
  ghost predicate Joins(t: Tree, o: Obj) {
    forall q :: q in t && t[q].ino == o.ino ==> t[q] == o
  }

  /** Outside the subtree at `p` nothing changed but the directory that held `p`. */
  ghost predicate Spares(t: Tree, u: Tree, p: Path)
    requires |p| > 0
  {
    forall q :: q in t && q in u && !(p <= q) && q != Parent(p) ==> u[q] == t[q]
  }

  lemma {:induction false} TouchCoherent(t: Tree, p: Path, now: Time)
    requires Coherent(t) && |p| > 0
    ensures Coherent(Touch(t, p, now))
  {
  }

  lemma {:induction false} StampCoherent(t: Tree, p: Path, o: Obj)
    requires Coherent(t) && DirAt(t, p) && o.ino == t[p].ino && o.node.Dir?
    ensures Coherent(t[p := o])
  {
  }

  lemma {:induction false} PlaceCoherent(t: Tree, p: Path, o: Obj)
    requires Coherent(t) && Joins(t, o)
    ensures Coherent(t[p := o])
  {
  }

  lemma {:induction false} JoinsAfter(t: Tree, u: Tree, p: Path, o: Obj)
    requires Removed(t, u, p) && Joins(t, o) && !o.node.Dir?
    ensures Joins(u, o)
  {
  }

  // ---------- the invariant of a run ----------

  /** Every source directory that has not been written is already a directory of the destination. */
  ghost predicate DirsDone(src: Tree, dst: Tree, written: map<Path, Obj>, p: Path) {
    p in src && src[p].node.Dir? && p !in written ==> DirAt(dst, p)
  }

  /**
   `dst` is the destination before the run, `t` the tree now, `written` what the run has put in
   place so far. With `keep` the tool's own metadata directory stays. The source paths in `lost`, none
   of them a directory, are gone, whatever had been done for them.
   */
  ghost predicate Progress(keep: bool, src: Tree, dst: Tree, t: Tree, written: map<Path, Obj>,
                           lost: set<Path> := {}) {
    && Closed(t)
    && (forall p :: p in lost ==> p in src && !src[p].node.Dir? && p !in t)
    && forall p {:trigger Accounted(keep, src, dst, t, written, p)} ::
         p !in lost ==> Accounted(keep, src, dst, t, written, p)
  }

  ghost predicate Accounted(keep: bool, src: Tree, dst: Tree, t: Tree, written: map<Path, Obj>, p: Path) {
    && (p in written ==> p in src && p in t && Alike(t[p], written[p]) && SameKind(written[p].node, src[p].node))
    && (p !in written && p in src && p in dst ==> p in t)
    && (p !in written && p in t ==> p in dst && Alike(t[p], dst[p]))
    && (keep && p in dst && Hidden(p) ==> p in t)
  }

  /** A source path that is not a directory is no ancestor of a source path. */
  lemma {:induction false} NothingBelow(src: Tree, p: Path, q: Path)
    requires Closed(src) && p in src && !src[p].node.Dir? && q in src && p <= q
    ensures p == q
  {
    assert Ready(src, p);
    if p < q {
      AncestorIsDir(src, p, q);
    }
  }

  lemma {:induction false} HiddenBelow(p: Path, q: Path)
    requires |p| > 0 && p <= q
    ensures Hidden(p) <==> Hidden(q)
  {
    assert p[0] == q[0];
  }

  lemma {:induction false} ReadyInSource(keep: bool, src: Tree, dst: Tree, t: Tree, written: map<Path, Obj>, p: Path,
                                         lost: set<Path> := {})
    requires Closed(src) && Progress(keep, src, dst, t, written, lost) && p in src
    requires |p| > 1 ==> DirsDone(src, dst, written, Parent(p))
    ensures Ready(t, p)
  {
    assert Ready(src, p);
    if |p| > 1 {
      var q := Parent(p);
      assert Accounted(keep, src, dst, t, written, q);
      assert q in written ==> SameKind(written[q].node, src[q].node);
    }
  }

  lemma {:induction false} PlaceProgress(keep: bool, src: Tree, dst: Tree, t: Tree, u: Tree, written: map<Path, Obj>,
                                         p: Path, o: Obj, lost: set<Path> := {})
    requires Closed(src) && (keep ==> NothingHidden(src)) && Progress(keep, src, dst, t, written, lost)
    requires p in src && !src[p].node.Dir? && SameKind(o.node, src[p].node)
    requires Closed(u) && Placed(t, u, p, o)
    ensures Progress(keep, src, dst, u, written[p := o], lost - {p})
    ensures lost == {} ==> Progress(keep, src, dst, u, written[p := o])
  {
    assert Ready(src, p);
    var now := written[p := o];
    forall q | q !in lost || q == p
      ensures Accounted(keep, src, dst, u, now, q)
    {
      if q != p {
        assert Accounted(keep, src, dst, t, written, q);
      }
      if p <= q && q in src {
        NothingBelow(src, p, q);
      }
      if p <= q {
        HiddenBelow(p, q);
      }
    }
    forall q | q in lost - {p}
      ensures q !in u
    {
      if p <= q {
        NothingBelow(src, p, q);
      }
    }
  }

  /** A file or link of the source whose name is taken is lost. */
  lemma {:induction false} TakeProgress(keep: bool, src: Tree, dst: Tree, t: Tree, u: Tree, written: map<Path, Obj>,
                                        p: Path, lost: set<Path> := {})
    requires Closed(src) && (keep ==> NothingHidden(src)) && Progress(keep, src, dst, t, written, lost)
    requires p in src && !src[p].node.Dir? && Closed(u) && Removed(t, u, p)
    ensures Progress(keep, src, dst, u, written, lost + {p})
  {
    assert Ready(src, p);
    forall q | q !in lost + {p}
      ensures Accounted(keep, src, dst, u, written, q)
    {
      assert Accounted(keep, src, dst, t, written, q);
      if p <= q && q in src {
        NothingBelow(src, p, q);
      }
      if p <= q {
        HiddenBelow(p, q);
      }
    }
    forall q | q in lost + {p}
      ensures q !in u
    {
      if p <= q {
        NothingBelow(src, p, q);
      }
    }
  }

  lemma {:induction false} DirProgress(keep: bool, src: Tree, dst: Tree, t: Tree, u: Tree, written: map<Path, Obj>,
                                       p: Path, mode: Mode, lost: set<Path> := {})
    requires Closed(src) && (keep ==> NothingHidden(src)) && Progress(keep, src, dst, t, written, lost)
    requires p in src && src[p].node.Dir? && Closed(u) && MadeDir(t, u, p, mode)
    ensures Progress(keep, src, dst, u, written[p := u[p]], lost)
  {
    var now := written[p := u[p]];
    forall q
      ensures q != p ==> (q in t <==> q in u) && (q in t && q in u ==> Alike(t[q], u[q]))
      ensures q !in lost ==> Accounted(keep, src, dst, u, now, q)
    {
      if q !in lost {
        assert Accounted(keep, src, dst, t, written, q);
      }
      assert q != p ==> (q in t <==> q in u) && (q in t && q in u ==> Alike(t[q], u[q]));
    }
  }

  lemma {:induction false} RemoveProgress(keep: bool, src: Tree, dst: Tree, t: Tree, u: Tree, written: map<Path, Obj>,
                                          p: Path, lost: set<Path> := {})
    requires Closed(src) && Progress(keep, src, dst, t, written, lost)
    requires |p| > 0 && p !in src && (keep ==> !Hidden(p)) && Closed(u) && Shrunk(t, u, p)
    ensures Progress(keep, src, dst, u, written, lost)
  {
    forall q
      ensures q !in lost ==> Accounted(keep, src, dst, u, written, q)
      ensures q in u ==> q in t
    {
      if q !in lost {
        assert Accounted(keep, src, dst, t, written, q);
      }
      if p <= q && q in src {
        assert |p| == |q| ==> p == q;
        AncestorIsDir(src, p, q);
      }
      if p <= q {
        HiddenBelow(p, q);
      }
    }
  }

  lemma {:induction false} MtimeProgress(keep: bool, src: Tree, dst: Tree, t: Tree, written: map<Path, Obj>, p: Path,
                                         m: Time, lost: set<Path> := {})
    requires Progress(keep, src, dst, t, written, lost) && DirAt(t, p)
    ensures Progress(keep, src, dst, t[p := Stamped(t[p], m)], written, lost)
  {
    var u := t[p := Stamped(t[p], m)];
    forall q | q in u
      ensures Ready(u, q)
    {
      assert Ready(t, q);
    }
    forall q | q !in lost
      ensures Accounted(keep, src, dst, u, written, q)
    {
      assert Accounted(keep, src, dst, t, written, q);
    }
  }
}
