/**
 The destination tree as the apply phases change it. The first methods are the system calls the
 engine issues, each of which may fail; the others are the engine's own per-entry operations. A call
 through a parent that is missing or is a symbolic link may land anywhere, so its effect is left
 arbitrary and recorded in `escaped`; a run without errors is proved never to make one.
 */
module Destination {
  import opened Trees
  import opened Steps
  import opened Jobs
  import opened Plan
  import opened Report

  class Destination {
    const pinned: set<Path>  // what the system will not unlink, whoever asks
    const suffix: string     // the process number, which link temporaries carry
    const fallible: bool     // system calls can fail
    const stoppable: bool    // the run can be cancelled
    var tree: Tree
    var stats: Stats
    var cancelled: bool
    ghost var written: map<Path, Obj>  // what the run has put in place so far
    ghost var lost: set<Path>          // source paths whose name a link's temporary has taken
    ghost var escaped: bool            // a call went through a missing or symlinked parent
    ghost var silent: bool             // a best-effort timestamp call failed unreported
    ghost var faulted: bool            // some system call failed that could have succeeded

    constructor (tree: Tree, pinned: set<Path>, suffix: string, fallible: bool := true, stoppable: bool := true)
      ensures this.pinned == pinned && this.suffix == suffix
      ensures this.fallible == fallible && this.stoppable == stoppable
      ensures this.tree == tree && stats == NO_STATS && !cancelled && written == map[] && lost == {} && !escaped
      ensures !silent && !faulted
    {
      this.pinned, this.suffix, this.fallible, this.stoppable := pinned, suffix, fallible, stoppable;
      this.tree, stats, cancelled := tree, NO_STATS, false;
      written, lost, escaped, silent, faulted := map[], {}, false, false, false;
    }

    /** Some call can fail: any, or the removal of what is pinned. */
    predicate CanFail() {
      fallible || pinned != {}
    }

    // ---------- system calls ----------

    method Unlink(p: Path) returns (ok: bool)
      requires Closed(tree) && |p| > 0 && p in tree && !DirAt(tree, p)
      modifies this`tree, this`faulted
      ensures Closed(tree) && Outside(old(tree), tree, p) && (faulted <==> old(faulted) || !ok) && (!ok ==> CanFail())
      ensures if ok then Removed(old(tree), tree, p) else tree == old(tree)
      ensures Undisturbed(pinned, old(tree), tree) && Spares(old(tree), tree, p)
    {
      var refused: bool := *;
      if (refused && fallible) || p in pinned {
        faulted := true;
        return false;
      }
      var now: Time := *;
      LeafSubtree(tree, p);
      RemoveKeeps(tree, p, now);
      RemoveDisturbsNothing(pinned, tree, p, now);
      assert tree - {p} == WithoutSubtree(tree, p);
      tree := Touch(tree - {p}, p, now);
      return true;
    }

    /** `remove_dir`: only an empty directory goes. */
    method RemoveDir(p: Path) returns (ok: bool)
      requires Closed(tree) && |p| > 0 && DirAt(tree, p)
      modifies this`tree
      ensures Closed(tree) && Outside(old(tree), tree, p)
      ensures if ok then Removed(old(tree), tree, p) else tree == old(tree)
      ensures Undisturbed(pinned, old(tree), tree) && Spares(old(tree), tree, p)
    {
      var refused: bool := *;
      if refused || p in pinned {
        return false;  // no fault: the caller falls back on the recursive removal
      }
      if exists q :: q in tree && p < q {
        return false;
      }
      var now: Time := *;
      RemoveKeeps(tree, p, now);
      assert forall q :: q in tree && p <= q ==> q == p by {
        assert forall q :: q in tree && p <= q && |p| == |q| ==> q == p;
      }
      RemoveDisturbsNothing(pinned, tree, p, now);
      assert tree - {p} == WithoutSubtree(tree, p);
      tree := Touch(tree - {p}, p, now);
      return true;
    }

    /** `remove_dir_all`: a failure may come after any part of the contents is gone. */
    method RemoveDirAll(p: Path) returns (ok: bool)
      requires Closed(tree) && |p| > 0 && DirAt(tree, p)
      modifies this`tree, this`faulted
      ensures Closed(tree) && Outside(old(tree), tree, p) && (faulted <==> old(faulted) || !ok) && (!ok ==> CanFail())
      ensures Shrunk(old(tree), tree, p) && (ok ==> Removed(old(tree), tree, p))
      ensures Undisturbed(pinned, old(tree), tree) && Spares(old(tree), tree, p)
    {
      var refused: bool := *;
      if (refused && fallible) || exists q :: q in pinned && q in tree && p <= q {
        faulted := true;
        var gone: set<Path> := *;
        if gone <= tree.Keys - pinned && Closed(tree - gone) && forall q :: q in gone ==> p < q {
          tree := tree - gone;
        }
        return false;
      }
      var now: Time := *;
      RemoveKeeps(tree, p, now);
      RemoveDisturbsNothing(pinned, tree, p, now);
      tree := Touch(WithoutSubtree(tree, p), p, now);
      return true;
    }

    /** An identity no live object has. */
    method FreshIno() returns (ino: nat)
      ensures forall q :: q in tree ==> tree[q].ino != ino
    {
      var live, top: nat := set q | q in tree :: tree[q].ino, 0;
      ghost var all := live;
      while live != {}
        invariant live <= all && forall x :: x in all && x !in live ==> x < top
        decreases |live|
      {
        var x :| x in live;
        live := live - {x};
        top := if top <= x then x + 1 else top;
      }
      assert forall q :: q in tree ==> tree[q].ino in all;
      ino := *;
      if ino in (set q | q in tree :: tree[q].ino) {
        ino := top;
      }
    }

    method Mkdir(p: Path) returns (ok: bool)
      requires Closed(tree) && Ready(tree, p) && p !in tree
      modifies this`tree, this`faulted
      ensures Closed(tree) && (faulted <==> old(faulted) || !ok) && (!ok ==> CanFail())
      ensures if ok then DirAt(tree, p) && MadeDir(old(tree), tree, p, tree[p].node.mode) else tree == old(tree)
      ensures Undisturbed(pinned, old(tree), tree)
    {
      var refused: bool := *;
      if refused && fallible {
        faulted := true;
        return false;
      }
      var mode: Mode, now: Time := *, *;
      var ino := FreshIno();
      var o := Obj(ino, Dir(mode, now));
      LeafSubtree(tree, p);
      PlaceKeeps(tree, p, o, now);
      PlaceDisturbsNothing(pinned, tree, p, o, now);
      tree := Touch(tree[p := o], p, now);
      return true;
    }

    method SetMode(p: Path, mode: Mode) returns (ok: bool)
      requires Closed(tree) && DirAt(tree, p)
      modifies this`tree, this`faulted
      ensures Closed(tree) && (faulted <==> old(faulted) || !ok) && (!ok ==> CanFail())
      ensures tree == if ok then old(tree)[p := Obj(old(tree)[p].ino, Dir(Strip(mode), old(tree)[p].node.mtime))]
              else old(tree)
      ensures Undisturbed(pinned, old(tree), tree)
    {
      var refused: bool := *;
      if refused && fallible {
        faulted := true;
        return false;
      }
      var t := tree;
      tree := t[p := Obj(t[p].ino, Dir(Strip(mode), t[p].node.mtime))];
      if Coherent(t) {
        StampCoherent(t, p, tree[p]);
      }
      forall q | q in tree
        ensures Ready(tree, q)
      {
        assert Ready(t, q);
      }
      return true;
    }

    /** `rename` of a finished temporary over anything that is not a directory. */
    method Rename(p: Path, o: Obj) returns (ok: bool)
      requires Closed(tree) && Ready(tree, p) && !DirAt(tree, p)
      modifies this`tree, this`faulted
      ensures Closed(tree) && (faulted <==> old(faulted) || !ok) && (!ok ==> CanFail())
      ensures if ok then Placed(old(tree), tree, p, o) else tree == old(tree)
      ensures KeepsPinned(pinned, old(tree), tree) && (Coherent(old(tree)) && Joins(old(tree), o) ==> Coherent(tree))
    {
      var refused: bool := *;
      if refused && fallible {
        faulted := true;
        return false;
      }
      var now: Time := *;
      PlaceKeeps(tree, p, o, now);
      PlaceDisturbsNothing(pinned, tree, p, o, now);
      tree := Touch(tree[p := o], p, now);
      return true;
    }

    /** A call whose path does not resolve inside the tree as planned: any outcome, any effect. */
    method Stray() returns (ok: bool)
      requires Closed(tree)
      modifies this`tree, this`escaped
      ensures Closed(tree) && escaped && KeepsPinned(pinned, old(tree), tree)
    {
      var t: Tree := *;
      tree, escaped := if Closed(t) && forall q :: q in pinned && q in tree ==> q in t then t else tree, true;
      ok := *;
    }

    // ---------- per-entry operations ----------

    method Checkpoint() returns (ok: bool)
      modifies this`cancelled
      ensures (old(cancelled) ==> cancelled) && (cancelled && !old(cancelled) ==> stoppable)
      ensures ok <==> !cancelled
    {
      var asked: bool := *;
      if asked && stoppable {
        cancelled := true;
      }
      ok := !cancelled;
    }

    /** `create_directory`: clear what is in the way, make the directory, set its mode. */
    method CreateDirectory(e: Entry) returns (done: bool)
      requires Closed(tree)
      modifies this`tree, this`stats, this`escaped, this`faulted
      ensures Closed(tree) && CountedOnce(old(stats), stats, done)
      ensures (old(faulted) ==> faulted) && (Ready(old(tree), e.rel) && !done ==> faulted)
      ensures faulted && !old(faulted) ==> CanFail()
      ensures done && !(e.rel in old(tree) && old(tree)[e.rel].node.Symlink?) ==>
                stats == old(stats).Bump(if e.rel in old(tree) then Update else Copy)
      ensures done ==> stats == old(stats).Bump(Copy) || stats == old(stats).Bump(Update)
      ensures (old(escaped) ==> escaped) && KeepsPinned(pinned, old(tree), tree)
      ensures !escaped ==> OnlyAt(old(tree), tree, e.rel)
      ensures !escaped ==> Undisturbed(pinned, old(tree), tree)
      ensures Ready(old(tree), e.rel) ==> escaped == old(escaped)
      ensures Ready(old(tree), e.rel) && done ==> MadeDir(old(tree), tree, e.rel, Strip(e.mode))
    {
      var p := e.rel;
      var existed := if p in tree then !tree[p].node.Symlink? else false;
      if p in tree && tree[p].node.Symlink? {
        existed := *;  // `exists` follows the link
      }
      if Ready(tree, p) {
        done := MakeDirectory(p, e.mode);
      } else {
        done := Stray();
      }
      stats := if done then stats.Bump(if existed then Update else Copy) else stats.Fail();
    }

    /** `remove_file` on what is in the way of a directory. */
    method ClearLeaf(p: Path) returns (free: bool)
      requires Closed(tree) && Ready(tree, p) && p in tree && !DirAt(tree, p)
      modifies this`tree, this`faulted
      ensures Closed(tree) && Ready(tree, p) && (faulted <==> old(faulted) || !free) && (!free ==> CanFail())
      ensures if free then Removed(old(tree), tree, p) else tree == old(tree)
      ensures OnlyAt(old(tree), tree, p) && Undisturbed(pinned, old(tree), tree)
    {
      ghost var t := tree;
      LeafSubtree(tree, p);
      free := Unlink(p);
      if free {
        LeafRemoved(t, tree, p);
        ReadyOutside(t, tree, p);
      }
    }

    method MakeDirectory(p: Path, mode: Mode) returns (done: bool)
      requires Closed(tree) && Ready(tree, p)
      modifies this`tree, this`faulted
      ensures Closed(tree) && (faulted <==> old(faulted) || !done) && (!done ==> CanFail())
      ensures done ==> MadeDir(old(tree), tree, p, Strip(mode))
      ensures OnlyAt(old(tree), tree, p)
      ensures Undisturbed(pinned, old(tree), tree)
    {
      if p in tree && !DirAt(tree, p) {
        done := ClearLeaf(p);
        if !done {
          return;
        }
      }
      if p !in tree {
        done := Mkdir(p);
        if !done {
          return;
        }
      }
      done := SetMode(p, mode);
    }

    /** Move `o` into place at `p`, first removing a directory, or anything when `unlinkFirst`. */
    method Replace(p: Path, o: Obj, unlinkFirst: bool) returns (done: bool)
      requires Closed(tree) && Ready(tree, p) && !o.node.Dir?
      modifies this`tree, this`faulted
      ensures Closed(tree) && (faulted <==> old(faulted) || !done) && (!done ==> CanFail())
      ensures Outside(old(tree), tree, p)
      ensures done ==> Placed(old(tree), tree, p, o)
      ensures KeepsPinned(pinned, old(tree), tree) && (Coherent(old(tree)) && Joins(old(tree), o) ==> Coherent(tree))
    {
      ghost var t := tree;
      if DirAt(tree, p) {
        done := RemoveDirAll(p);
        if !done {
          return;
        }
        ReadyOutside(t, tree, p);
        if Joins(t, o) {
          JoinsAfter(t, tree, p, o);
        }
      } else if unlinkFirst && p in tree {
        done := Unlink(p);
        if !done {
          return;
        }
        ReadyOutside(t, tree, p);
        if Joins(t, o) {
          JoinsAfter(t, tree, p, o);
        }
      }
      ghost var u := tree;
      done := Rename(p, o);
      if done {
        RemovedThenPlaced(t, u, tree, p, o);
      }
    }

    /** `copy_file_atomic`: a fresh inode with the source's bytes, mode and time, renamed into place. */
    method CopyFileAtomic(e: Entry, node: Node, action: Action) returns (done: bool, ghost o: Obj)
      requires Closed(tree) && node.File?
      modifies this`tree, this`stats, this`escaped, this`faulted
      ensures Closed(tree) && CountedOnce(old(stats), stats, done)
      ensures (old(faulted) ==> faulted) && (Ready(old(tree), e.rel) && !done ==> faulted)
      ensures faulted && !old(faulted) ==> CanFail()
      ensures stats == if done then old(stats).Bump(action).(bytes := old(stats).bytes + |node.content|)
              else old(stats).Fail()
      ensures (old(escaped) ==> escaped) && KeepsPinned(pinned, old(tree), tree)
      ensures !escaped ==> Outside(old(tree), tree, e.rel)
      ensures !escaped ==> Undisturbed(pinned, old(tree), tree)
      ensures o.node == Fresh(node) && forall q :: q in old(tree) ==> old(tree)[q].ino != o.ino
      ensures Ready(old(tree), e.rel) ==> escaped == old(escaped)
      ensures Ready(old(tree), e.rel) && done ==> Placed(old(tree), tree, e.rel, o)
    {
      var ino := FreshIno();
      var copy := Obj(ino, Fresh(node));
      var refused: bool := *;
      o := copy;
      if !Ready(tree, e.rel) {
        done := Stray();
      } else if refused && fallible {
        done, faulted := false, true;  // unreadable source, full disk, refused metadata
      } else {
        done := Replace(e.rel, copy, false);
      }
      stats := if done then stats.Bump(action).(bytes := stats.bytes + |node.content|) else stats.Fail();
    }

    /** `create_hardlink`: another name for the inode the group's first member has by now. */
    method CreateHardlink(e: Entry, first: Path, action: Action) returns (done: bool, ghost o: Obj)
      requires Closed(tree)
      modifies this`tree, this`stats, this`escaped, this`faulted
      ensures Closed(tree) && CountedOnce(old(stats), stats, done)
      ensures (old(faulted) ==> faulted) && (faulted && !old(faulted) ==> CanFail())
      ensures Ready(old(tree), e.rel) && first in old(tree) && old(tree)[first].node.File? && !done ==> faulted
      ensures stats == if done then old(stats).Bump(action) else old(stats).Fail()
      ensures (old(escaped) ==> escaped) && KeepsPinned(pinned, old(tree), tree)
      ensures !escaped ==> Outside(old(tree), tree, e.rel)
      ensures !escaped ==> Undisturbed(pinned, old(tree), tree)
      ensures Ready(old(tree), e.rel) && first in old(tree) && old(tree)[first].node.File? ==>
                escaped == old(escaped) && o == old(tree)[first] && (done ==> Placed(old(tree), tree, e.rel, o))
    {
      var refused: bool := *;
      o := if first in tree then tree[first] else Obj(0, Symlink("", Time(0, 0)));
      if !Ready(tree, e.rel) || (first in tree && tree[first].node.Symlink?) {
        done := Stray();
      } else if first !in tree || DirAt(tree, first) {
        done := false;
      } else if refused && fallible {
        done, faulted := false, true;
      } else {
        done := Replace(e.rel, tree[first], true);
      }
      stats := if done then stats.Bump(action) else stats.Fail();
    }

    /** `remove_file` on the name a link will be made under; a directory of that name is in the way for good. */
    method FreeTmpName(p: Path) returns (free: bool)
      requires Closed(tree) && Ready(tree, p)
      modifies this`tree, this`faulted
      ensures Closed(tree) && Ready(tree, p) && (old(faulted) ==> faulted)
      ensures faulted && !old(faulted) ==> CanFail()
      ensures free ==> Removed(old(tree), tree, TmpOf(p, suffix)) && !DirAt(old(tree), TmpOf(p, suffix))
      ensures !free ==> faulted || DirAt(old(tree), TmpOf(p, suffix))
      ensures OnlyAt(old(tree), tree, TmpOf(p, suffix))
      ensures Undisturbed(pinned, old(tree), tree)
    {
      var tmp := TmpOf(p, suffix);
      TmpIsBeside(p, suffix);
      ghost var t := tree;
      if tmp !in tree {
        NothingAt(tree, tmp, false);
        return true;
      }
      if DirAt(tree, tmp) {
        return false;
      }
      free := Unlink(tmp);
      if free {
        LeafRemoved(t, tree, tmp);
      }
      ReadyBeside(t, tree, p, tmp);
    }

    /**
     `create_symlink`: the target copied verbatim; the link's own time is set if it can be. Whatever
     had the name the link was made under is gone, and `mid` is the tree in between.
     */
    method CreateSymlink(e: Entry, target: string, action: Action) returns (done: bool, ghost o: Obj, ghost mid: Tree)
      requires Closed(tree)
      modifies this`tree, this`stats, this`escaped, this`silent, this`faulted
      ensures Closed(tree) && CountedOnce(old(stats), stats, done)
      ensures (old(faulted) ==> faulted) && (silent && !old(silent) ==> faulted)
      ensures faulted && !old(faulted) ==> CanFail()
      ensures Ready(old(tree), e.rel) && !done ==> faulted || DirAt(old(tree), TmpOf(e.rel, suffix))
      ensures stats == if done then old(stats).Bump(action) else old(stats).Fail()
      ensures old(silent) ==> silent
      ensures (old(escaped) ==> escaped) && KeepsPinned(pinned, old(tree), tree)
      ensures !escaped ==> |e.rel| > 0 && OnlyAt(old(tree), mid, TmpOf(e.rel, suffix)) && Outside(mid, tree, e.rel)
      ensures !escaped ==> Undisturbed(pinned, old(tree), tree)
      ensures o.node.Symlink? && o.node.target == target && (!silent ==> o.node.mtime == e.mtime)
      ensures if Ready(old(tree), e.rel) then escaped == old(escaped) else escaped
      ensures Ready(old(tree), e.rel) && done ==>
                && Closed(mid) && Removed(old(tree), mid, TmpOf(e.rel, suffix)) && Placed(mid, tree, e.rel, o)
                && !DirAt(old(tree), TmpOf(e.rel, suffix))
    {
      var time := e.mtime;
      var untimed: bool, refused: bool := *, *;
      if untimed && fallible {
        time := *;
        silent, faulted := true, true;
      }
      mid, o := tree, Obj(0, Symlink(target, time));
      if !Ready(tree, e.rel) {
        done := Stray();
      } else {
        done := FreeTmpName(e.rel);
        mid := tree;
        var ino := FreshIno();
        var link := Obj(ino, Symlink(target, time));
        o := link;
        if !done {
        } else if refused && fallible {
          done, faulted := false, true;
        } else {
          done := Replace(e.rel, link, false);
        }
      }
      stats := if done then stats.Bump(action) else stats.Fail();
    }

    /** `set_mtime`, whose result is ignored. */
    method SetMtime(p: Path, m: Time)
      requires Closed(tree)
      modifies this`tree, this`escaped, this`silent, this`faulted
      ensures Closed(tree) && (old(silent) ==> silent) && (old(faulted) ==> faulted)
      ensures (silent && !old(silent) ==> faulted) && (faulted && !old(faulted) ==> CanFail())
      ensures (old(escaped) ==> escaped) && KeepsPinned(pinned, old(tree), tree)
      ensures !escaped ==> tree.Keys == old(tree).Keys && forall q :: q in tree ==> Alike(tree[q], old(tree)[q])
      ensures !escaped ==> Undisturbed(pinned, old(tree), tree)
      ensures DirAt(old(tree), p) ==> escaped == old(escaped)
      ensures DirAt(old(tree), p) ==> (silent && tree == old(tree)) || tree == old(tree)[p := Stamped(old(tree)[p], m)]
    {
      var refused: bool := *;
      if refused && fallible {
        silent, faulted := true, true;
      } else if DirAt(tree, p) {
        ghost var t := tree;
        tree := tree[p := Stamped(tree[p], m)];
        if Coherent(t) {
          StampCoherent(t, p, tree[p]);
        }
        forall q | q in tree
          ensures Ready(tree, q)
        {
          assert Ready(t, q);
        }
      } else {
        var _ := Stray();
      }
    }

    /** `has_symlink_ancestor`: some strict ancestor is a symbolic link, or is gone. */
    method HasSymlinkAncestor(p: Path) returns (r: bool)
      ensures r <==> exists k :: 0 < k < |p| && (p[..k] !in tree || tree[p[..k]].node.Symlink?)
    {
      var k := 1;
      while k < |p|
        invariant k >= 1
        invariant forall j :: 0 < j < k && j < |p| ==> p[..j] in tree && !tree[p[..j]].node.Symlink?
      {
        var prefix := p[..k];
        if prefix !in tree || tree[prefix].node.Symlink? {
          return true;
        }
        k := k + 1;
      }
      return false;
    }

    /** `delete_entry`: nothing to do behind a link or for a path already gone. */
    method DeleteEntry(d: Deletion) returns (done: bool)
      requires Closed(tree) && |d.rel| > 0
      modifies this`tree, this`faulted
      ensures Closed(tree) && Shrunk(old(tree), tree, d.rel) && (old(faulted) ==> faulted)
      ensures faulted && !old(faulted) ==> CanFail()
      ensures !done && (d.rel in old(tree) ==> (d.isDir <==> DirAt(old(tree), d.rel))) ==> faulted
      ensures done ==> Removed(old(tree), tree, d.rel)
      ensures Undisturbed(pinned, old(tree), tree) && Spares(old(tree), tree, d.rel)
    {
      var p := d.rel;
      var behindLink := HasSymlinkAncestor(p);
      if behindLink || p !in tree {
        NothingAt(tree, p, behindLink);
        return true;
      }
      if d.isDir && DirAt(tree, p) {
        done := RemoveDir(p);
        if !done {
          done := RemoveDirAll(p);
        }
      } else if !DirAt(tree, p) && (!d.isDir || tree[p].node.Symlink?) {
        done := Unlink(p);
      } else {
        done := false;  // the kind changed under the plan
      }
    }

    static lemma {:induction false} RemoveDisturbsNothing(pinned: set<Path>, t: Tree, p: Path, now: Time)
      requires |p| > 0 && forall q :: q in pinned && q in t ==> !(p <= q)
      ensures Undisturbed(pinned, t, Touch(WithoutSubtree(t, p), p, now))
      ensures Spares(t, Touch(WithoutSubtree(t, p), p, now), p)
    {
      if Coherent(t) {
        TouchCoherent(WithoutSubtree(t, p), p, now);
      }
    }

    static lemma {:induction false} PlaceDisturbsNothing(pinned: set<Path>, t: Tree, p: Path, o: Obj, now: Time)
      requires |p| > 0
      ensures KeepsPinned(pinned, t, Touch(t[p := o], p, now))
      ensures Coherent(t) && Joins(t, o) ==> Coherent(Touch(t[p := o], p, now))
    {
      if Coherent(t) && Joins(t, o) {
        PlaceCoherent(t, p, o);
        TouchCoherent(t[p := o], p, now);
      }
    }

    /** In a closed tree a path behind a link, or an absent path, has nothing at it or below it. */
    static lemma {:induction false} NothingAt(t: Tree, p: Path, behindLink: bool)
      requires Closed(t) && |p| > 0
      requires behindLink ==> exists k :: 0 < k < |p| && (p[..k] !in t || t[p[..k]].node.Symlink?)
      requires !behindLink ==> p !in t
      ensures Removed(t, t, p)
    {
      forall q | q in t
        ensures !(p <= q)
      {
        if p <= q {
          if behindLink {
            var k :| 0 < k < |p| && (p[..k] !in t || t[p[..k]].node.Symlink?);
            assert p[..k] < q;
            AncestorIsDir(t, p[..k], q);
          } else {
            assert |p| == |q| ==> p == q;
            AncestorIsDir(t, p, q);
          }
        }
      }
    }
  }
}
