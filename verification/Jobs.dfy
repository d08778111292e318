/**
 What a plan asks of each source path once it is partitioned, and what having done it means. The
 partition loop of the apply phase is proved to produce exactly these jobs.
 */
module Jobs {
  import opened Bytes
  import opened Trees
  import opened Plan

  /** Leave alone, make a directory, copy a file, link to an earlier path, or place a symlink. */
  datatype Job = Keep | Make | Write | Link(first: Path) | Point

  /** The job of entry `i`. */
  function JobAt(es: seq<Entry>, actions: seq<PlannedAction>, hardLinks: bool, i: nat): Job
    requires i < |es| == |actions|
  {
    if actions[i].action == Skip then Keep
    else match es[i].kind
      case KindDir => Make
      case KindSymlink(_) => Point
      case KindFile => if hardLinks && IsDuplicate(es, i) then Link(es[FirstNamed(es, es[i].ino, i)].rel) else Write
  }

  /** The jobs of the first `n` entries, by path. */
  function JobsOf(es: seq<Entry>, actions: seq<PlannedAction>, hardLinks: bool, n: nat): map<Path, Job>
    requires n <= |es| == |actions|
  {
    if n == 0 then map[]
    else JobsOf(es, actions, hardLinks, n - 1)[es[n - 1].rel := JobAt(es, actions, hardLinks, n - 1)]
  }

  lemma {:induction false} JobsOfEntry(es: seq<Entry>, actions: seq<PlannedAction>, hardLinks: bool, n: nat, i: nat)
    requires i < n <= |es| == |actions| && ParentsFirst(es)
    ensures var jobs := JobsOf(es, actions, hardLinks, n);
            es[i].rel in jobs && jobs[es[i].rel] == JobAt(es, actions, hardLinks, i)
  {
    if i < n - 1 {
      JobsOfEntry(es, actions, hardLinks, n - 1, i);
      assert !(es[n - 1].rel <= es[i].rel);
    }
  }

  lemma {:induction false} JobsOfDomain(es: seq<Entry>, actions: seq<PlannedAction>, hardLinks: bool, n: nat, p: Path)
    requires n <= |es| == |actions|
    ensures p in JobsOf(es, actions, hardLinks, n) <==> exists i :: 0 <= i < n && es[i].rel == p
  {
    if n > 0 {
      JobsOfDomain(es, actions, hardLinks, n - 1, p);
    }
  }

  function Makes(jobs: map<Path, Job>): set<Path> { set p | p in jobs && jobs[p].Make? }
  function Writes(jobs: map<Path, Job>): set<Path> { set p | p in jobs && jobs[p].Write? }
  function Links(jobs: map<Path, Job>): set<Path> { set p | p in jobs && jobs[p].Link? }
  function Points(jobs: map<Path, Job>): set<Path> { set p | p in jobs && jobs[p].Point? }

  /** `set_mode` keeps the permission bits and drops setuid and setgid. */
  function Strip(m: Mode): Mode {
    Mode(false, false, m.sticky, m.rwx)
  }

  /** What copying a source file puts in place. */
  function Fresh(n: Node): Node
    requires n.File?
  {
    File(n.content, Strip(n.mode), n.mtime)
  }

  /** Jobs that suit the two trees they were planned for. */
  ghost predicate JobsFit(src: Tree, dst: Tree, jobs: map<Path, Job>) {
    && jobs.Keys == src.Keys
    && forall p {:trigger JobFits(src, dst, jobs, p)} :: p in jobs ==> JobFits(src, dst, jobs, p)
  }

  ghost predicate JobFits(src: Tree, dst: Tree, jobs: map<Path, Job>, p: Path)
    requires p in jobs
  {
    p in src &&
    match jobs[p]
    case Keep => p in dst && SameKind(dst[p].node, src[p].node)
    case Make => src[p].node.Dir?
    case Write => src[p].node.File?
    case Point => src[p].node.Symlink?
    case Link(c) => src[p].node.File? && c in src && src[c].node.File? && src[c].ino == src[p].ino
                    && c in jobs && (jobs[c].Keep? || jobs[c].Write?)
  }

  /** The object the run has in place for a file path that is not a link itself. */
  function InPlace(dst: Tree, written: map<Path, Obj>, c: Path): Option<Obj> {
    if c in written then Some(written[c]) else if c in dst then Some(dst[c]) else None
  }

  /** No path that is left alone shares the identity of `o`. */
  ghost predicate Unshared(dst: Tree, jobs: map<Path, Job>, o: Obj) {
    forall q :: q in jobs && jobs[q].Keep? && q in dst ==> dst[q].ino != o.ino
  }

  /** What has been written at `p` is what its job asks for. `timed` says link times were set too. */
  ghost predicate Delivered(src: Tree, dst: Tree, jobs: map<Path, Job>, written: map<Path, Obj>, timed: bool, p: Path) {
    p in written ==>
      p in jobs && p in src &&
      match jobs[p]
      case Keep => false
      case Make => src[p].node.Dir? && written[p].node.Dir? && written[p].node.mode == Strip(src[p].node.mode)
      case Write => src[p].node.File? && written[p].node == Fresh(src[p].node) && Unshared(dst, jobs, written[p])
      case Point => src[p].node.Symlink? && written[p].node.Symlink? && written[p].node.target == src[p].node.target
                    && (timed ==> written[p].node.mtime == src[p].node.mtime)
      case Link(c) => InPlace(dst, written, c) == Some(written[p])
  }

  ghost predicate AllDelivered(src: Tree, dst: Tree, jobs: map<Path, Job>, written: map<Path, Obj>, timed: bool) {
    forall p :: Delivered(src, dst, jobs, written, timed, p)
  }

  lemma {:induction false} DeliverOne(src: Tree, dst: Tree, jobs: map<Path, Job>, written: map<Path, Obj>, timed: bool,
                                      p: Path, o: Obj)
    requires JobsFit(src, dst, jobs) && AllDelivered(src, dst, jobs, written, timed) && p in jobs
    requires Delivered(src, dst, jobs, written[p := o], timed, p)
    requires jobs[p].Write? ==> forall q :: q in written ==> q in jobs && !jobs[q].Link?
    ensures AllDelivered(src, dst, jobs, written[p := o], timed)
  {
    var now := written[p := o];
    forall q
      ensures Delivered(src, dst, jobs, now, timed, q)
    {
      assert Delivered(src, dst, jobs, written, timed, q);
      if q in jobs && jobs[q].Link? {
        assert JobFits(src, dst, jobs, q);
      }
    }
  }

  /** The jobs of a careful plan suit the trees the plan was made for. */
  lemma {:induction false} PlanJobsFit(h: Hasher, src: Tree, dst: Tree, checksum: bool, es: seq<Entry>,
                                       actions: seq<PlannedAction>, hardLinks: bool)
    requires IsWalk(src, es) && Careful(h, src, dst, checksum, es, actions)
    ensures JobsFit(src, dst, JobsOf(es, actions, hardLinks, |es|))
  {
    var jobs := JobsOf(es, actions, hardLinks, |es|);
    forall p
      ensures p in jobs <==> p in src
      ensures p in jobs ==> JobFits(src, dst, jobs, p)
    {
      JobsOfDomain(es, actions, hardLinks, |es|, p);
      assert p in src ==> Lists(es, p);
      if p in jobs {
        var i :| 0 <= i < |es| && es[i].rel == p;
        PlanJobFits(h, src, dst, checksum, es, actions, hardLinks, i);
      }
    }
  }

  lemma {:induction false} PlanJobFits(h: Hasher, src: Tree, dst: Tree, checksum: bool, es: seq<Entry>,
                                       actions: seq<PlannedAction>, hardLinks: bool, i: nat)
    requires IsWalk(src, es) && Careful(h, src, dst, checksum, es, actions) && i < |es|
    ensures var jobs := JobsOf(es, actions, hardLinks, |es|);
            es[i].rel in jobs && JobFits(src, dst, jobs, es[i].rel)
  {
    JobsOfEntry(es, actions, hardLinks, |es|, i);
    var p := es[i].rel;
    assert es[i] == EntryOf(p, src[p]);
    match JobAt(es, actions, hardLinks, i)
    case Keep => SkipMeansSameKind(h, src, dst, checksum, es, actions, i);
    case Link(c) => LinkNamesFirst(src, es, actions, hardLinks, i);
    case _ =>
  }

  lemma {:induction false} SkipMeansSameKind(h: Hasher, src: Tree, dst: Tree, checksum: bool, es: seq<Entry>,
                                             actions: seq<PlannedAction>, i: nat)
    requires IsWalk(src, es) && Careful(h, src, dst, checksum, es, actions) && i < |es|
    requires actions[i].action == Skip
    ensures Classify(h, src, dst, es[i].rel, checksum) == Skip
    ensures es[i].rel in dst && SameKind(dst[es[i].rel].node, src[es[i].rel].node)
  {
    assert CarefulAt(h, src, dst, checksum, es[i], actions[i]);
  }

  /** The path a duplicate links to is its group's first member, which is never itself a link. */
  lemma {:induction false} LinkNamesFirst(src: Tree, es: seq<Entry>, actions: seq<PlannedAction>, hardLinks: bool,
                                          i: nat)
    requires IsWalk(src, es) && |actions| == |es| && i < |es| && IsDuplicate(es, i)
    ensures var f := FirstNamed(es, es[i].ino, i);
            var jobs := JobsOf(es, actions, hardLinks, |es|);
            && f < i && es[f].rel in src && src[es[f].rel].node.File? && src[es[f].rel].ino == es[i].ino
            && es[f].rel in jobs && (jobs[es[f].rel].Keep? || jobs[es[f].rel].Write?)
  {
    var f := FirstNamed(es, es[i].ino, i);
    FirstNamedIsFirst(es, es[i].ino, i);
    FirstNamedIsFirst(es, es[f].ino, f);
    assert es[f] == EntryOf(es[f].rel, src[es[f].rel]);
    JobsOfEntry(es, actions, hardLinks, |es|, f);
  }
}
