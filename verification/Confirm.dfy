/**
 Planner, apply phases and verifier together: a clean run passes the verifier exactly when nothing it
 wrote carries a bit that `set_mode` strips and what it left alone already agreed to the nanosecond.
 The planner compares whole seconds, the verifier exact times, so neither half is a formality.
 */
module Confirm {
  import opened Bytes
  import opened Trees
  import opened Jobs
  import opened Plan
  import opened Apply
  import opened Phases
  import opened Mirror
  import Verify

  /** A tree seen by the verifier with no optional attribute asked for. */
  function Bare(t: Tree): Verify.Side {
    Verify.Side(t, (p: Path) => true, (p: Path) => 0, (p: Path) => 0, (p: Path) => None, (p: Path) => None)
  }

  function CheckOf(h: Hasher, src: Tree, t: Tree, hardLinks: bool): Verify.Check {
    Verify.Check(Bare(src), Bare(t), h, Verify.Wanted(false, false, hardLinks, false, false, false))
  }

  /** What decides whether the verifier will accept `p`; a directory's time counts only if it lost an entry. */
  ghost predicate Exact(run: Run, t: Tree, dels: seq<Deletion>, p: Path)
    requires p in run.src
  {
    && NodeExact(run, p)
    && (run.src[p].node.Dir? && LosesEntry(dels, p) ==> p in t && t[p].node.mtime == run.src[p].node.mtime)
  }

  ghost predicate NodeExact(run: Run, p: Path)
    requires p in run.src
  {
    var c := Representative(run.jobs, p);
    if c in run.jobs && run.jobs[c].Keep?
    then run.src[p].node.Dir? || (c in run.dst && run.dst[c].node == run.src[p].node)
    else Plain(run.src[p].node)
  }

  lemma {:induction false} FileVerifies(h: Hasher, checksum: bool, run: Run, t: Tree, written: map<Path, Obj>,
                                         dels: seq<Deletion>, hardLinks: bool, p: Path)
    requires Settled(run, t, written, true) && KeepsMatch(h, run.src, run.dst, checksum, run.jobs) && Coherent(run.src)
    requires p in run.src && run.src[p].node.File?
    ensures p in t && (Verify.AgreeAt(CheckOf(h, run.src, t, hardLinks), p) <==> Exact(run, t, dels, p))
  {
    FileAtRepresentative(h, checksum, run, t, written, true, p);
  }

  lemma {:induction false} OtherVerifies(h: Hasher, checksum: bool, run: Run, t: Tree, written: map<Path, Obj>,
                                         dels: seq<Deletion>, hardLinks: bool, p: Path)
    requires Settled(run, t, written, true) && TimesRestored(run, t, dels)
    requires KeepsMatch(h, run.src, run.dst, checksum, run.jobs)
    requires p in run.src && !run.src[p].node.File?
    ensures p in t && (Verify.AgreeAt(CheckOf(h, run.src, t, hardLinks), p) <==> Exact(run, t, dels, p))
  {
    FinalObject(run, t, written, true, p);
    assert JobFits(run.src, run.dst, run.jobs, p);
    assert LosesEntry(dels, p) || TimeRestored(run, t, p);
    if run.jobs[p].Keep? {
      assert Classify(h, run.src, run.dst, p, checksum) == Skip;
    }
  }

  /** The topology a run keeps is the one the verifier looks for. */
  lemma {:induction false} GroupsAgree(src: Tree, t: Tree)
    requires SameTopology(src, t)
    ensures Verify.SameGroups(src, Visible(t))
  {
    var dst := Visible(t);
    forall p, q | p in src && q in src && p in dst && q in dst && src[p].node.File? && src[q].node.File? &&
                  src[p].ino == src[q].ino
      ensures dst[p].ino == dst[q].ino
    {
      assert SharesAlike(src, t, p, q);
    }
  }

  /** After a clean run that restored its times, the trees agree exactly when every path is exact. */
  lemma {:induction false} CleanRunAgrees(h: Hasher, checksum: bool, run: Run, t: Tree, written: map<Path, Obj>,
                                         dels: seq<Deletion>, hardLinks: bool)
    requires Settled(run, t, written, true) && TimesRestored(run, t, dels)
    requires KeepsMatch(h, run.src, run.dst, checksum, run.jobs)
    requires Coherent(run.src) && SamePathsAndKinds(run.src, t) && (hardLinks ==> SameTopology(run.src, t))
    ensures Verify.Agree(CheckOf(h, run.src, t, hardLinks)) <==> forall p :: p in run.src ==> Exact(run, t, dels, p)
  {
    var c := CheckOf(h, run.src, t, hardLinks);
    forall p
      ensures p in Visible(t) <==> p in run.src
      ensures p in run.src ==> p in t && (Verify.AgreeAt(c, p) <==> Exact(run, t, dels, p))
    {
      if p in run.src {
        if run.src[p].node.File? {
          FileVerifies(h, checksum, run, t, written, dels, hardLinks, p);
        } else {
          OtherVerifies(h, checksum, run, t, written, dels, hardLinks, p);
        }
      }
    }
    assert Visible(t).Keys == run.src.Keys;
    if hardLinks {
      GroupsAgree(run.src, t);
    }
    Verify.AgreementInParts(c);
  }

  /** So the verifier's report after such a run is clean exactly then. */
  lemma {:induction false} CleanRunVerifies(h: Hasher, checksum: bool, run: Run, t: Tree, written: map<Path, Obj>,
                                         dels: seq<Deletion>, hardLinks: bool, dstWalk: seq<Entry>)
    requires run.Valid() && Settled(run, t, written, true) && TimesRestored(run, t, dels)
    requires KeepsMatch(h, run.src, run.dst, checksum, run.jobs)
    requires Coherent(run.src) && SamePathsAndKinds(run.src, t) && (hardLinks ==> SameTopology(run.src, t))
    requires IsWalk(t, dstWalk) && Verify.NoCollisions(CheckOf(h, run.src, t, hardLinks))
    requires Verify.Report(CheckOf(h, run.src, t, hardLinks), run.es, Retain(dstWalk)).Ok?
    ensures Verify.Report(CheckOf(h, run.src, t, hardLinks), run.es, Retain(dstWalk)) == Ok([]) <==>
            forall p :: p in run.src ==> Exact(run, t, dels, p)
  {
    CleanRunAgrees(h, checksum, run, t, written, dels, hardLinks);
    Verify.CleanMeansAgree(CheckOf(h, run.src, t, hardLinks), run.es, dstWalk);
  }
}
