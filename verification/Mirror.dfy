/**
 What planning and applying add up to: the destination mirrors the source, hard-link groups stay
 groups, and planning again finds nothing left to do. No single phase establishes any of these.
 */
module Mirror {
  import opened Trees
  import opened Steps
  import opened Jobs
  import opened Plan
  import opened Apply
  import opened Phases

  /** The tree after a run that reported no failure, as a value. */
  ghost predicate Settled(run: Run, t: Tree, written: map<Path, Obj>, timed: bool) {
    run.Fits() && OnTrack(run, t, written, timed) && AllWritten(run, written)
  }

  /** What is at a source path in the end: what was written there, or what was there before. */
  lemma {:induction false} FinalObject(run: Run, t: Tree, written: map<Path, Obj>, timed: bool, p: Path)
    requires Settled(run, t, written, timed) && p in run.src
    ensures p in run.jobs && p in t && SameKind(t[p].node, run.src[p].node)
    ensures run.jobs[p].Keep? <==> p !in written
    ensures p !in written ==> p in run.dst && Alike(t[p], run.dst[p])
    ensures p in written ==> Alike(t[p], written[p]) && Delivered(run.src, run.dst, run.jobs, written, timed, p)
  {
    assert JobFits(run.src, run.dst, run.jobs, p);
    assert Accounted(true, run.src, run.dst, t, written, p);
    assert Delivered(run.src, run.dst, run.jobs, written, timed, p);
  }

  // ---------- the mirror ----------

  /** The paths of `t` outside the metadata directory are those of the source, each of its kind. */
  ghost predicate SamePathsAndKinds(src: Tree, t: Tree) {
    && (forall p :: p in t && !Hidden(p) <==> p in src)
    && (forall p :: p in src && p in t ==> SameKind(t[p].node, src[p].node))
  }

  ghost predicate SameTargets(src: Tree, t: Tree) {
    forall p :: p in src && p in t && src[p].node.Symlink? && t[p].node.Symlink? ==>
      t[p].node.target == src[p].node.target
  }

  ghost predicate SameContents(src: Tree, t: Tree) {
    forall p :: p in src && p in t && src[p].node.File? && t[p].node.File? ==> t[p].node.content == src[p].node.content
  }

  /** Every deletion is carried out, so what is left is the source's paths and the metadata. */
  lemma {:induction false} MirrorsPaths(run: Run, t: Tree, written: map<Path, Obj>, timed: bool, dels: seq<Deletion>)
    requires Settled(run, t, written, timed)
    requires forall p :: p in run.dst && !Hidden(p) && p !in run.src ==> exists k :: 0 <= k < |dels| && dels[k].rel == p
    requires forall k :: 0 <= k < |dels| ==> dels[k].rel !in t
    ensures SamePathsAndKinds(run.src, t)
  {
    forall p
      ensures p in t && !Hidden(p) <==> p in run.src
      ensures p in run.src && p in t ==> SameKind(t[p].node, run.src[p].node)
    {
      assert Accounted(true, run.src, run.dst, t, written, p);
      if p in run.src {
        FinalObject(run, t, written, timed, p);
      }
    }
  }

  /** The classification behind every kept path found nothing to do. */
  ghost predicate KeepsMatch(h: Hasher, src: Tree, dst: Tree, checksum: bool, jobs: map<Path, Job>) {
    forall p :: p in jobs && jobs[p].Keep? && p in src ==> Classify(h, src, dst, p, checksum) == Skip
  }

  lemma {:induction false} MirrorsTargets(h: Hasher, checksum: bool, run: Run, t: Tree, written: map<Path, Obj>,
                                          timed: bool)
    requires Settled(run, t, written, timed) && KeepsMatch(h, run.src, run.dst, checksum, run.jobs)
    ensures SameTargets(run.src, t)
  {
    forall p | p in run.src && p in t && run.src[p].node.Symlink?
      ensures t[p].node.Symlink? && t[p].node.target == run.src[p].node.target
    {
      FinalObject(run, t, written, timed, p);
      assert JobFits(run.src, run.dst, run.jobs, p);
      if run.jobs[p].Keep? {
        assert Classify(h, run.src, run.dst, p, checksum) == Skip;
      }
    }
  }

  /** A file the classifier would leave alone has the source's bytes. */
  ghost predicate SkipsAreEqual(h: Hasher, src: Tree, dst: Tree, checksum: bool) {
    forall p :: p in src && p in dst && src[p].node.File? && dst[p].node.File?
                && !FilesDiffer(h, src[p].node, dst[p].node, checksum)
      ==> src[p].node.content == dst[p].node.content
  }

  /** No path has equal hashes but different bytes on the two sides. */
  ghost predicate NoCollisions(h: Hasher, src: Tree, dst: Tree) {
    forall p :: p in src && p in dst && src[p].node.File? && dst[p].node.File?
                && h(src[p].node.content) == h(dst[p].node.content)
      ==> src[p].node.content == dst[p].node.content
  }

  /** In checksum mode that trust is earned by the hash: it need only not collide on these files. */
  lemma {:induction false} ChecksumEarnsTrust(h: Hasher, src: Tree, dst: Tree)
    requires NoCollisions(h, src, dst)
    ensures SkipsAreEqual(h, src, dst, true)
  {
  }

  /** The classifier finds something to do for `p` and, with hard links, for every name of its file. */
  ghost predicate Renewed(h: Hasher, src: Tree, dst: Tree, checksum: bool, hardLinks: bool, p: Path)
    requires p in src
  {
    && Classify(h, src, dst, p, checksum) != Skip
    && (hardLinks ==> forall q :: q in src && src[q].node.File? && src[q].ino == src[p].ino ==>
                                    Classify(h, src, dst, q, checksum) != Skip)
  }

  /** Every file the classifier would not leave alone has the source's bytes and time, and its mode stripped. */
  ghost predicate FilesArrive(h: Hasher, src: Tree, dst: Tree, checksum: bool, hardLinks: bool, t: Tree) {
    forall p :: p in src && src[p].node.File? && Renewed(h, src, dst, checksum, hardLinks, p)
      ==> p in t && t[p].node == Fresh(src[p].node)
  }

  /**
   Files the classifier finds different arrive without any assumption; files left alone, and links to
   them, are equal as far as the classifier can be trusted on that path.
   */
  lemma {:induction false} MirrorsContents(h: Hasher, checksum: bool, run: Run, t: Tree, written: map<Path, Obj>,
                                           timed: bool)
    requires run.Valid() && Settled(run, t, written, timed) && Coherent(run.src)
    requires KeepsMatch(h, run.src, run.dst, checksum, run.jobs)
    ensures FilesArrive(h, run.src, run.dst, checksum, run.hardLinks, t)
    ensures SkipsAreEqual(h, run.src, run.dst, checksum) ==> SameContents(run.src, t)
  {
    forall p | p in run.src && run.src[p].node.File?
      ensures p in t
      ensures Renewed(h, run.src, run.dst, checksum, run.hardLinks, p) ==> t[p].node == Fresh(run.src[p].node)
      ensures SkipsAreEqual(h, run.src, run.dst, checksum) && t[p].node.File? ==>
                t[p].node.content == run.src[p].node.content
    {
      FinalObject(run, t, written, timed, p);
      FileAtRepresentative(h, checksum, run, t, written, timed, p);
      var c := Representative(run.jobs, p);
      if run.jobs[c].Keep? {
        assert Classify(h, run.src, run.dst, c, checksum) == Skip;
        if c != p {
          LinksOnlyOnRequest(run, p);
        }
      }
    }
  }

  lemma {:induction false} LinksOnlyOnRequest(run: Run, p: Path)
    requires run.Valid() && p in run.jobs && run.jobs[p].Link?
    ensures run.hardLinks
  {
    assert JobFits(run.src, run.dst, run.jobs, p);
    assert Lists(run.es, p);
    var i :| 0 <= i < |run.es| && run.es[i].rel == p;
    JobsOfEntry(run.es, run.actions, run.hardLinks, |run.es|, i);
  }

  /**
   What has become of a planned entry: left as it was, or made what the source says; a duplicate is
   another name of whatever its group's first member now is.
   */
  ghost predicate Served(run: Run, t: Tree, i: nat)
    requires i < |run.es| == |run.actions| && run.es[i].rel in run.src
  {
    var p := run.es[i].rel;
    p in t &&
    if run.actions[i].action == Skip then p in run.dst && Alike(t[p], run.dst[p])
    else match run.src[p].node
      case Dir(mode, _) => t[p].node.Dir? && t[p].node.mode == Strip(mode)
      case Symlink(target, _) => t[p].node.Symlink? && t[p].node.target == target
      case File(_, _, _) =>
        if run.hardLinks && IsDuplicate(run.es, i) then
          var q := run.es[FirstNamed(run.es, run.es[i].ino, i)].rel;
          q in t && t[p] == t[q]
        else t[p].node == Fresh(run.src[p].node)
  }

  /** Without any assumption, a run that reported no failure served every entry. */
  lemma {:induction false} EntryServed(run: Run, t: Tree, written: map<Path, Obj>, timed: bool, i: nat)
    requires run.Valid() && Settled(run, t, written, timed) && i < |run.es|
    ensures run.es[i].rel in run.src && Served(run, t, i)
  {
    var p := run.es[i].rel;
    JobsOfEntry(run.es, run.actions, run.hardLinks, |run.es|, i);
    FinalObject(run, t, written, timed, p);
    assert run.es[i] == EntryOf(p, run.src[p]);
    assert JobFits(run.src, run.dst, run.jobs, p);
    if run.jobs[p].Link? {
      FinalObject(run, t, written, timed, run.jobs[p].first);
    }
  }

  /** The path whose own job decided the object at `p`: the link's target, or `p` itself. */
  function Representative(jobs: map<Path, Job>, p: Path): Path {
    if p in jobs && jobs[p].Link? then jobs[p].first else p
  }

  /** A file shows its representative's object, which is a fresh copy or one the classifier accepts. */
  lemma {:induction false} FileAtRepresentative(h: Hasher, checksum: bool, run: Run, t: Tree, written: map<Path, Obj>,
                                                timed: bool, p: Path)
    requires Settled(run, t, written, timed) && KeepsMatch(h, run.src, run.dst, checksum, run.jobs) && Coherent(run.src)
    requires p in run.src && run.src[p].node.File?
    ensures var c := Representative(run.jobs, p);
            && p in t && p in run.jobs && c in run.jobs && c in run.src && c in t && t[p] == t[c] &&
               run.src[c] == run.src[p]
            && (run.jobs[c].Write? || run.jobs[c].Keep?)
            && (run.jobs[c].Write? ==> t[p].node == Fresh(run.src[p].node))
            && (run.jobs[c].Keep? ==> c in run.dst && t[p] == run.dst[c] && t[p].node.File?
                                      && !FilesDiffer(h, run.src[p].node, t[p].node, checksum))
  {
    FinalObject(run, t, written, timed, p);
    assert JobFits(run.src, run.dst, run.jobs, p);
    var c := Representative(run.jobs, p);
    FinalObject(run, t, written, timed, c);
    assert JobFits(run.src, run.dst, run.jobs, c);
    if run.jobs[c].Keep? {
      assert Classify(h, run.src, run.dst, c, checksum) == Skip;
    }
  }

  // ---------- hard links ----------

  /** Any two source files that share an inode share one in the destination. */
  ghost predicate SameTopology(src: Tree, t: Tree) {
    forall p, q :: SharesAlike(src, t, p, q)
  }

  ghost predicate SharesAlike(src: Tree, t: Tree, p: Path, q: Path) {
    (p in src && q in src && src[p].node.File? && src[q].node.File? && src[p].ino == src[q].ino) ==>
      (p in t && q in t && t[p].ino == t[q].ino)
  }

  /** The first member of a file's hard-link group, by walk order. */
  function GroupFirst(es: seq<Entry>, ino: nat): nat {
    FirstNamed(es, ino, |es|)
  }

  lemma {:induction false} FirstNamedStable(es: seq<Entry>, i: nat)
    requires i < |es| && IsFile(es[i])
    ensures FirstNamed(es, es[i].ino, i) == GroupFirst(es, es[i].ino) ||
            (FirstNamed(es, es[i].ino, i) == i && GroupFirst(es, es[i].ino) == i)
  {
    FirstNamedIsFirst(es, es[i].ino, i);
    FirstNamedIsFirst(es, es[i].ino, |es|);
  }

  /** A duplicate is left alone only with its group's first member, whose object it shares already. */
  ghost predicate Together(run: Run, i: nat)
    requires i < |run.es| == |run.actions|
  {
    IsDuplicate(run.es, i) && run.actions[i].action == Skip ==>
      var f := FirstNamed(run.es, run.es[i].ino, i);
      && run.actions[f].action == Skip
      && run.es[i].rel in run.dst && run.es[f].rel in run.dst
      && run.dst[run.es[i].rel].ino == run.dst[run.es[f].rel].ino
  }

  ghost predicate GroupsTogether(run: Run)
    requires |run.es| == |run.actions|
  {
    forall i :: 0 <= i < |run.es| ==> Together(run, i)
  }

  /** A live-walk plan that minds hard links never splits a group. */
  lemma {:induction false} WalkPlanKeepsGroups(h: Hasher, opts: PlanOptions, run: Run)
    requires run.Valid() && opts.hardLinks && Coherent(run.src) && Coherent(run.dst)
    requires PlansActions(h, run.src, run.dst, opts, run.es, run.actions)
    ensures GroupsTogether(run)
  {
    forall i | 0 <= i < |run.es|
      ensures Together(run, i)
    {
      if IsDuplicate(run.es, i) && run.actions[i].action == Skip {
        SkippedDuplicate(h, opts, run, i);
      }
    }
  }

  lemma {:induction false} SkippedDuplicate(h: Hasher, opts: PlanOptions, run: Run, i: nat)
    requires IsWalk(run.src, run.es) && |run.actions| == |run.es|
    requires opts.hardLinks && Coherent(run.src) && Coherent(run.dst)
    requires PlansActions(h, run.src, run.dst, opts, run.es, run.actions)
    requires i < |run.es| && IsDuplicate(run.es, i) && run.actions[i].action == Skip
    ensures Together(run, i)
  {
    var f := FirstNamed(run.es, run.es[i].ino, i);
    FirstNamedIsFirst(run.es, run.es[i].ino, i);
    PlanIsCareful(h, run.src, run.dst, opts, run.es, run.actions);
    SkipMeansSameKind(h, run.src, run.dst, opts.checksum, run.es, run.actions, i);
    var p, q := run.es[i].rel, run.es[f].rel;
    assert run.es[i] == EntryOf(p, run.src[p]) && run.es[f] == EntryOf(q, run.src[q]);
    assert run.src[p] == run.src[q];
    assert run.actions[i] == PlannedAction(run.es[i], ActionFor(h, run.src, run.dst, opts, run.es, i));
    assert Identity(run.dst, p) == Identity(run.dst, q);
    assert run.dst[p] == run.dst[q];
    FirstNamedIsFirst(run.es, run.es[f].ino, f);
    assert run.actions[f] == PlannedAction(run.es[f], ActionFor(h, run.src, run.dst, opts, run.es, f));
  }

  /** Every file's job: first of its group, linked to that first member, or left alone beside it. */
  lemma {:induction false} DuplicateFollowsFirst(run: Run, i: nat)
    requires run.Valid() && run.hardLinks && GroupsTogether(run)
    requires i < |run.es| && IsFile(run.es[i])
    ensures var f := FirstNamed(run.es, run.es[i].ino, i);
            f == i
            || (&& f < i && run.jobs[run.es[i].rel] == Link(run.es[f].rel))
            || (&& f < i && run.jobs[run.es[i].rel].Keep? && run.jobs[run.es[f].rel].Keep?
                && run.es[i].rel in run.dst && run.es[f].rel in run.dst
                && run.dst[run.es[i].rel].ino == run.dst[run.es[f].rel].ino)
  {
    var f := FirstNamed(run.es, run.es[i].ino, i);
    JobsOfEntry(run.es, run.actions, run.hardLinks, |run.es|, i);
    if f < i && !run.jobs[run.es[i].rel].Link? {
      assert Together(run, i);
      JobsOfEntry(run.es, run.actions, run.hardLinks, |run.es|, f);
    }
  }

  lemma {:induction false} SharesWithFirst(run: Run, t: Tree, written: map<Path, Obj>, timed: bool, i: nat)
    requires run.Valid() && run.hardLinks && GroupsTogether(run)
    requires Settled(run, t, written, timed) && i < |run.es| && IsFile(run.es[i])
    ensures var g := GroupFirst(run.es, run.es[i].ino);
            && g < |run.es| && run.es[i].rel in t && run.es[g].rel in t
            && t[run.es[i].rel].ino == t[run.es[g].rel].ino
  {
    var f, p := FirstNamed(run.es, run.es[i].ino, i), run.es[i].rel;
    FirstNamedStable(run.es, i);
    FirstNamedIsFirst(run.es, run.es[i].ino, |run.es|);
    var q := run.es[GroupFirst(run.es, run.es[i].ino)].rel;
    DuplicateFollowsFirst(run, i);
    FinalObject(run, t, written, timed, p);
    FinalObject(run, t, written, timed, q);
  }

  /** Hard-link topology: groups of the source are groups of the destination exactly if the plan splits none. */
  lemma {:induction false} HardLinkTopology(run: Run, t: Tree, written: map<Path, Obj>, timed: bool)
    requires run.Valid() && run.hardLinks && Settled(run, t, written, timed)
    ensures SameTopology(run.src, t) <==> GroupsTogether(run)
  {
    if GroupsTogether(run) {
      forall p, q
        ensures SharesAlike(run.src, t, p, q)
      {
        if p in run.src && q in run.src && run.src[p].node.File? && run.src[q].node.File?
           && run.src[p].ino == run.src[q].ino {
          PairShares(run, t, written, timed, p, q);
        }
      }
    } else {
      var i :| 0 <= i < |run.es| && !Together(run, i);
      SplitStaysSplit(run, t, written, timed, i);
    }
  }

  /** A duplicate left alone without its first member ends on another inode, for copies are always fresh. */
  lemma {:induction false} SplitStaysSplit(run: Run, t: Tree, written: map<Path, Obj>, timed: bool, i: nat)
    requires run.Valid() && Settled(run, t, written, timed) && i < |run.es| && !Together(run, i)
    ensures var f := FirstNamed(run.es, run.es[i].ino, i);
            f < i && !SharesAlike(run.src, t, run.es[i].rel, run.es[f].rel)
  {
    var f := FirstNamed(run.es, run.es[i].ino, i);
    FirstNamedIsFirst(run.es, run.es[i].ino, i);
    FirstNamedIsFirst(run.es, run.es[f].ino, f);
    var p, q := run.es[i].rel, run.es[f].rel;
    assert run.es[i] == EntryOf(p, run.src[p]) && run.es[f] == EntryOf(q, run.src[q]);
    JobsOfEntry(run.es, run.actions, run.hardLinks, |run.es|, i);
    JobsOfEntry(run.es, run.actions, run.hardLinks, |run.es|, f);
    FinalObject(run, t, written, timed, p);
    FinalObject(run, t, written, timed, q);
  }

  lemma {:induction false} PairShares(run: Run, t: Tree, written: map<Path, Obj>, timed: bool, p: Path, q: Path)
    requires run.Valid() && run.hardLinks && GroupsTogether(run)
    requires Settled(run, t, written, timed)
    requires p in run.src && q in run.src && run.src[p].node.File? && run.src[q].node.File?
    requires run.src[p].ino == run.src[q].ino
    ensures p in t && q in t && t[p].ino == t[q].ino
  {
    assert Lists(run.es, p) && Lists(run.es, q);
    var i :| 0 <= i < |run.es| && run.es[i].rel == p;
    var j :| 0 <= j < |run.es| && run.es[j].rel == q;
    assert run.es[i] == EntryOf(p, run.src[p]) && run.es[j] == EntryOf(q, run.src[q]);
    SharesWithFirst(run, t, written, timed, i);
    SharesWithFirst(run, t, written, timed, j);
  }

  // ---------- convergence ----------

  predicate Plain(n: Node) {
    n.Symlink? || (!n.mode.setuid && !n.mode.setgid)
  }

  /** The clock at a source directory shows the second the source has; links and files do not matter. */
  ghost predicate ClockAgrees(src: Tree, t: Tree, p: Path) {
    p in src && src[p].node.Dir? ==> DirAt(t, p) && t[p].node.mtime.secs == src[p].node.mtime.secs
  }

  /**
   Planned again, a path needs nothing exactly when it was left alone, is a link, or carries no bit
   that `set_mode` strips; a directory must also still show the source's second.
   */
  lemma {:induction false} ReplanSkips(h: Hasher, checksum: bool, run: Run, t: Tree, written: map<Path, Obj>, p: Path)
    requires Settled(run, t, written, true)
    requires KeepsMatch(h, run.src, run.dst, checksum, run.jobs) && Coherent(run.src)
    requires p in run.src
    ensures Classify(h, run.src, t, p, checksum) == Skip <==> AtRest(run, p) && ClockAgrees(run.src, t, p)
  {
    FinalObject(run, t, written, true, p);
    assert JobFits(run.src, run.dst, run.jobs, p);
    if run.src[p].node.File? {
      FileAtRepresentative(h, checksum, run, t, written, true, p);
    } else if run.jobs[p].Keep? {
      assert Classify(h, run.src, run.dst, p, checksum) == Skip;
    }
  }

  /** What planning again will leave alone. */
  ghost predicate AtRest(run: Run, p: Path)
    requires p in run.src
  {
    var c := Representative(run.jobs, p);
    (c in run.jobs && run.jobs[c].Keep?) || Plain(run.src[p].node)
  }

  /**
   Convergence: after a clean run, planning again, hard links included, leaves an entry alone exactly
   when it is at rest and, for a directory, still shows the source's second. Only directories that
   lost an entry can fail the latter.
   */
  lemma {:induction false} Converges(h: Hasher, opts: PlanOptions, run: Run, t: Tree, written: map<Path, Obj>,
                                     dels: seq<Deletion>, i: nat)
    requires run.Valid() && run.hardLinks == opts.hardLinks && Coherent(run.src)
    requires opts.hardLinks ==> GroupsTogether(run)
    requires Settled(run, t, written, true) && TimesRestored(run, t, dels)
    requires KeepsMatch(h, run.src, run.dst, opts.checksum, run.jobs)
    requires i < |run.es|
    ensures var p := run.es[i].rel;
            && (ActionFor(h, run.src, t, opts, run.es, i) == Skip <==> AtRest(run, p) && ClockAgrees(run.src, t, p))
            && (!LosesEntry(dels, p) ==> ClockAgrees(run.src, t, p))
  {
    var p := run.es[i].rel;
    ReplanSkips(h, opts.checksum, run, t, written, p);
    assert LosesEntry(dels, p) || TimeRestored(run, t, p);
    if opts.hardLinks && IsDuplicate(run.es, i) {
      GroupsHold(run, t, written, i);
    }
  }

  /** A duplicate and its group's first member share one identity in the end. */
  lemma {:induction false} GroupsHold(run: Run, t: Tree, written: map<Path, Obj>, i: nat)
    requires run.Valid() && run.hardLinks && GroupsTogether(run)
    requires Settled(run, t, written, true) && i < |run.es| && IsDuplicate(run.es, i)
    ensures Identity(t, run.es[i].rel) == Identity(t, run.es[FirstNamed(run.es, run.es[i].ino, i)].rel)
  {
    FirstNamedStable(run.es, i);
    SharesWithFirst(run, t, written, true, i);
  }

  /**
   Why a run that deletes need not converge: removing an entry stamps its directory after the times
   were restored, so that directory is left alone next time only if the clock agrees with the source.
   */
  lemma {:induction false} DeletionStampsParent(h: Hasher, src: Tree, t: Tree, stray: Path, now: Time, checksum: bool)
    requires |stray| > 1 && DirAt(t, Parent(stray)) && Parent(stray) in src
    requires Classify(h, src, t, Parent(stray), checksum) == Skip
    ensures Classify(h, src, Touch(WithoutSubtree(t, stray), stray, now), Parent(stray), checksum) == Skip
       <==> now.secs == src[Parent(stray)].node.mtime.secs
  {
    assert !(stray <= Parent(stray));
  }
}
