/**
 The file phase at the granularity of system calls: any number of copies in flight, interleaved in
 any order, each of which may fail at any call, and the whole stopped at any moment. What a crash or
 a cancellation can leave at a path is its old node or its complete new one, never a mixture.
 */
module FilePhase {
  import opened Bytes
  import opened Trees
  import opened Jobs

  type Files = map<Path, Node>

  /** One planned copy: where it goes, the random name it is built under, and what it must become. */
  datatype Copying = Copying(target: Path, tmp: Path, content: Buffer, mode: Mode, mtime: Time)

  /** How far a copy has come: the next call it makes. */
  datatype Stage = Idle | Filling | Filled | Moded | Timed | Cleared | Done | Failed

  datatype State = State(files: Files, stages: seq<Stage>)

  function NewNode(c: Copying): Node {
    File(c.content, Strip(c.mode), c.mtime)
  }

  /** Targets are files of one source tree, so none is above another; temporary names are fresh. */
  ghost predicate Planned(files: Files, copies: seq<Copying>) {
    && (forall i :: 0 <= i < |copies| ==> |copies[i].target| > 0 && |copies[i].tmp| > 0 && copies[i].tmp !in files
                                          && Parent(copies[i].tmp) == Parent(copies[i].target))
    && (forall i, j :: 0 <= i < |copies| && 0 <= j < |copies| ==>
          copies[i].tmp != copies[j].target &&
          (i != j ==> copies[i].tmp != copies[j].tmp && !(copies[i].target <= copies[j].target)))
  }

  predicate IsDir(files: Files, p: Path) {
    p in files && files[p].Dir?
  }

  function Clear<V>(files: map<Path, V>, p: Path): map<Path, V> {
    map q | q in files && !(p <= q) :: files[q]
  }

  // ---------- the calls of one copy ----------

  /** The temporary appears, empty and with whatever mode and time the system gives it. */
  ghost predicate Start(s: State, u: State, c: Copying, i: nat)
    requires i < |s.stages|
  {
    && s.stages[i] == Idle && c.tmp !in s.files
    && exists m: Mode, t: Time :: u == State(s.files[c.tmp := File([], m, t)], s.stages[i := Filling])
  }

  /** More of the source reaches the temporary; the last piece completes it. */
  ghost predicate Fill(s: State, u: State, c: Copying, i: nat)
    requires i < |s.stages|
  {
    && s.stages[i] == Filling && c.tmp in s.files && s.files[c.tmp].File?
    && exists part: Buffer, t: Time ::
         && part <= c.content
         && u == State(s.files[c.tmp := File(part, s.files[c.tmp].mode, t)],
                       s.stages[i := if part == c.content then Filled else Filling])
  }

  ghost predicate SetTmpMode(s: State, u: State, c: Copying, i: nat)
    requires i < |s.stages|
  {
    && s.stages[i] == Filled && c.tmp in s.files && s.files[c.tmp].File?
    && u == State(s.files[c.tmp := File(s.files[c.tmp].content, Strip(c.mode), s.files[c.tmp].mtime)],
                  s.stages[i := Moded])
  }

  ghost predicate SetTmpTime(s: State, u: State, c: Copying, i: nat)
    requires i < |s.stages|
  {
    && s.stages[i] == Moded && c.tmp in s.files && s.files[c.tmp].File?
    && u == State(s.files[c.tmp := File(s.files[c.tmp].content, s.files[c.tmp].mode, c.mtime)], s.stages[i := Timed])
  }

  /** A directory in the way is removed, in one go or in pieces; anything else is left alone. */
  ghost predicate ClearTarget(s: State, u: State, c: Copying, i: nat)
    requires i < |s.stages|
  {
    && s.stages[i] == Timed
    && (if IsDir(s.files, c.target)
        then u == State(Clear(s.files, c.target), s.stages[i := Cleared]) || ClearPart(s, u, c.target)
        else u == State(s.files, s.stages[i := Cleared]))
  }

  ghost predicate ClearPart(s: State, u: State, p: Path) {
    u.stages == s.stages && PartCleared(s.files, u.files, p)
  }

  /** Some of what is below `p` is gone. */
  ghost predicate PartCleared<V>(files: map<Path, V>, left: map<Path, V>, p: Path) {
    && (forall q :: q in left ==> q in files && left[q] == files[q])
    && (forall q :: q in files && !(p < q) ==> q in left)
  }

  ghost predicate Swap(s: State, u: State, c: Copying, i: nat)
    requires i < |s.stages|
  {
    && s.stages[i] == Cleared && c.tmp in s.files
    && u == State((s.files - {c.tmp})[c.target := s.files[c.tmp]], s.stages[i := Done])
  }

  /** Any call may fail; the temporary is then cleaned up, or left behind. */
  ghost predicate Fail(s: State, u: State, c: Copying, i: nat)
    requires i < |s.stages|
  {
    && s.stages[i] != Done && s.stages[i] != Failed
    && u.stages == s.stages[i := Failed]
    && (u.files == s.files || (s.stages[i] != Idle && u.files == s.files - {c.tmp}))
  }

  /** One call of one copy; directories may show another time after it. */
  ghost predicate Step(copies: seq<Copying>, s: State, u: State) {
    && |s.stages| == |copies|
    && exists i, v :: 0 <= i < |copies| && StepOf(copies[i], s, v, i) && Restamped(v, u)
  }

  /** Equal up to the modification time of a directory. */
  predicate SameNode(a: Node, b: Node) {
    if a.Dir? then b.Dir? && b.mode == a.mode else a == b
  }

  ghost predicate Restamped(v: State, u: State) {
    && u.stages == v.stages && u.files.Keys == v.files.Keys
    && forall q :: q in v.files ==> SameNode(v.files[q], u.files[q])
  }

  ghost predicate StepOf(c: Copying, s: State, u: State, i: nat)
    requires i < |s.stages|
  {
    Start(s, u, c, i) || Fill(s, u, c, i) || SetTmpMode(s, u, c, i) || SetTmpTime(s, u, c, i)
    || ClearTarget(s, u, c, i) || Swap(s, u, c, i) || Fail(s, u, c, i)
  }

  // ---------- what every step keeps ----------

  /** The state of one copy: its target is untouched or done, its temporary as far as its stage says. */
  ghost predicate CopyOk(before: Files, s: State, c: Copying, i: nat)
    requires i < |s.stages|
  {
    && (s.stages[i] == Done ==> c.target in s.files && s.files[c.target] == NewNode(c))
    && (s.stages[i] != Done && !IsDir(before, c.target) ==>
          (c.target in before <==> c.target in s.files) &&
          (c.target in before ==> s.files[c.target] == before[c.target]))
    && (s.stages[i] == Filled || s.stages[i] == Moded ==>
          c.tmp in s.files && s.files[c.tmp].File? && s.files[c.tmp].content == c.content)
    && (s.stages[i] == Moded ==> s.files[c.tmp].mode == Strip(c.mode))
    && (s.stages[i] == Timed || s.stages[i] == Cleared ==> c.tmp in s.files && s.files[c.tmp] == NewNode(c))
  }

  ghost predicate Inv(before: Files, copies: seq<Copying>, s: State) {
    && |s.stages| == |copies|
    && forall i :: 0 <= i < |copies| ==> CopyOk(before, s, copies[i], i)
  }

  /** A step of one copy changes nothing but its temporary, its target and what was below that. */
  lemma {:induction false} StepFrame(c: Copying, s: State, u: State, i: nat, q: Path)
    requires i < |s.stages| && StepOf(c, s, u, i) && q != c.tmp && !(c.target <= q)
    ensures q in s.files <==> q in u.files
    ensures q in s.files ==> u.files[q] == s.files[q]
    ensures |u.stages| == |s.stages| && forall j :: 0 <= j < |s.stages| && j != i ==> u.stages[j] == s.stages[j]
  {
  }

  lemma {:induction false} OwnStep(before: Files, c: Copying, s: State, u: State, i: nat)
    requires i < |s.stages| && StepOf(c, s, u, i) && CopyOk(before, s, c, i) && |u.stages| == |s.stages|
    requires c.tmp != c.target && !(c.target <= c.tmp)
    ensures CopyOk(before, u, c, i)
  {
    assert c.target <= c.target;
  }

  lemma {:induction false} AboveSibling(p: Path, q: Path, r: Path)
    requires |q| > 0 && |r| > 0 && Parent(q) == Parent(r) && p <= q && p != q
    ensures p <= r && p != r
  {
    assert |p| == |q| ==> p == q;
    assert p <= Parent(q) <= r;
  }

  /** No temporary is at or below any target. */
  lemma {:induction false} NotBelow(before: Files, copies: seq<Copying>, i: nat, j: nat)
    requires Planned(before, copies) && i < |copies| && j < |copies|
    ensures !(copies[i].target <= copies[j].tmp)
  {
    if copies[i].target <= copies[j].tmp {
      AboveSibling(copies[i].target, copies[j].tmp, copies[j].target);
    }
  }

  lemma {:induction false} StepSpares(copies: seq<Copying>, s: State, u: State, q: Path)
    requires Step(copies, s, u)
    requires forall i :: 0 <= i < |copies| ==> q != copies[i].tmp && !(copies[i].target <= q)
    ensures q in s.files <==> q in u.files
    ensures q in s.files ==> SameNode(s.files[q], u.files[q])
  {
    var i, v :| 0 <= i < |copies| && StepOf(copies[i], s, v, i) && Restamped(v, u);
    StepFrame(copies[i], s, v, i, q);
  }

  lemma {:induction false} RestampKeeps(before: Files, v: State, u: State, c: Copying, i: nat)
    requires i < |v.stages| && Restamped(v, u) && CopyOk(before, v, c, i)
    ensures CopyOk(before, u, c, i)
  {
    assert c.target in v.files ==> SameNode(v.files[c.target], u.files[c.target]);
    assert c.tmp in v.files ==> SameNode(v.files[c.tmp], u.files[c.tmp]);
  }

  lemma {:induction false} StepKeepsInv(before: Files, copies: seq<Copying>, s: State, u: State)
    requires Planned(before, copies) && Inv(before, copies, s) && Step(copies, s, u)
    ensures Inv(before, copies, u)
  {
    var i, v :| 0 <= i < |copies| && StepOf(copies[i], s, v, i) && Restamped(v, u);
    CallKeepsInv(before, copies, s, v, i);
    forall j | 0 <= j < |copies|
      ensures CopyOk(before, u, copies[j], j)
    {
      RestampKeeps(before, v, u, copies[j], j);
    }
  }

  lemma {:induction false} CallKeepsInv(before: Files, copies: seq<Copying>, s: State, u: State, i: nat)
    requires Planned(before, copies) && Inv(before, copies, s) && i < |copies| && StepOf(copies[i], s, u, i)
    ensures Inv(before, copies, u)
  {
    NotBelow(before, copies, i, i);
    StepFrame(copies[i], s, u, i, []);
    OwnStep(before, copies[i], s, u, i);
    forall j | 0 <= j < |copies| && j != i
      ensures CopyOk(before, u, copies[j], j)
    {
      NotBelow(before, copies, i, j);
      assert CopyOk(before, s, copies[j], j);
      StepFrame(copies[i], s, u, i, copies[j].tmp);
      StepFrame(copies[i], s, u, i, copies[j].target);
    }
  }

  /** A run: from the tree before the phase, any interleaving of calls, cut off anywhere. */
  ghost predicate IsRun(before: Files, copies: seq<Copying>, run: seq<State>) {
    && |run| > 0
    && run[0] == State(before, seq(|copies|, _ => Idle))
    && forall k :: 0 <= k < |run| - 1 ==> Step(copies, run[k], run[k + 1])
  }

  lemma {:induction false} RunKeepsInv(before: Files, copies: seq<Copying>, run: seq<State>, k: nat)
    requires Planned(before, copies) && IsRun(before, copies, run) && k < |run|
    ensures Inv(before, copies, run[k])
  {
    if k > 0 {
      RunKeepsInv(before, copies, run, k - 1);
      assert Step(copies, run[k - 1], run[k - 1 + 1]);
      StepKeepsInv(before, copies, run[k - 1], run[k]);
    }
  }

  /**
   Old or new: at every moment of every run, a target that was not a directory shows its old node, or
   its absence, or else the complete new content, mode and time.
   */
  lemma {:induction false} OldOrNew(before: Files, copies: seq<Copying>, run: seq<State>, k: nat, i: nat)
    requires Planned(before, copies) && IsRun(before, copies, run) && k < |run| && i < |copies|
    requires !IsDir(before, copies[i].target)
    ensures var p, s := copies[i].target, run[k];
            || (p in s.files && s.files[p] == NewNode(copies[i]))
            || (p in before && p in s.files && s.files[p] == before[p])
            || (p !in before && p !in s.files)
  {
    RunKeepsInv(before, copies, run, k);
    assert CopyOk(before, run[k], copies[i], i);
  }

  /** A copy that has run to its end shows the complete new file, whatever else is in flight. */
  lemma {:induction false} DoneMeansNew(before: Files, copies: seq<Copying>, run: seq<State>, k: nat, i: nat)
    requires Planned(before, copies) && IsRun(before, copies, run) && k < |run| && i < |copies|
    requires |run[k].stages| == |copies| && run[k].stages[i] == Done
    ensures copies[i].target in run[k].files && run[k].files[copies[i].target] == NewNode(copies[i])
  {
    RunKeepsInv(before, copies, run, k);
    assert CopyOk(before, run[k], copies[i], i);
  }

  /** Nothing else is disturbed: what is no target, no temporary and below no target stays, directory times apart. */
  lemma {:induction false} BystandersKeep(before: Files, copies: seq<Copying>, run: seq<State>, k: nat, q: Path)
    requires Planned(before, copies) && IsRun(before, copies, run) && k < |run|
    requires forall i :: 0 <= i < |copies| ==> q != copies[i].tmp && !(copies[i].target <= q)
    ensures q in before <==> q in run[k].files
    ensures q in before ==> SameNode(before[q], run[k].files[q])
  {
    if k > 0 {
      BystandersKeep(before, copies, run, k - 1, q);
      assert Step(copies, run[k - 1], run[k - 1 + 1]);
      StepSpares(copies, run[k - 1], run[k], q);
    }
  }
}
