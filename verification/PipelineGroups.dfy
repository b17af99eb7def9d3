/** The process group of a pipeline: shell and child both call setpgid, and either may be first. */
module PipelineGroups {
  import opened Pipeline

  /** Stage i has been moved, by itself or by the shell. */
  predicate Moved(s: State, i: nat)
    requires i < |s.kids|
  {
    !s.kids[i].pc.Join? || s.parent.pc != PJoin(i)
  }

  ghost predicate GroupInv(s: State) {
    && (s.kids == [] ==> s.parent.pgid == 0)
    && (forall i :: 0 <= i < |s.kids| ==> s.kids[i].pid > 0)
    && (forall i :: 0 <= i < |s.kids| && s.kids[i].reaped ==> s.kids[i].pc.Exited? || s.kids[i].pc.Broken?)
    && (s.parent.pc.PPipe? ==> s.kids == [])
    && (s.parent.pc.PFork? ==> |s.kids| == s.parent.pc.i)
    && (s.parent.pc.PJoin? ==> |s.kids| == s.parent.pc.i + 1)
    && (s.kids != [] ==> s.kids[0].leader == 0 && s.parent.pgid == if s.parent.pc == PJoin(0) then 0 else s.kids[0].pid)
    && (forall i :: 1 <= i < |s.kids| ==> s.kids[i].leader == s.kids[0].pid)
    && (s.kids != [] && !s.kids[0].reaped ==>
          forall i :: 0 <= i < |s.kids| && Moved(s, i) ==> s.kids[i].pgrp == s.kids[0].pid)
  }

  lemma ParentKeepsGroup(c: Config, s: State, a: int, b: int)
    requires GroupInv(s) && ParentEnabled(c, s, a, b)
    ensures GroupInv(ParentApply(c, s, a, b))
  {}

  lemma KidKeepsGroup(c: Config, s: State, i: nat, k: nat)
    requires GroupInv(s) && KidEnabled(c, s, i, k)
    ensures GroupInv(KidApply(c, s, i, k))
  {
    if !s.kids[i].pc.Join? {
      KidStays(c, s, i, k);
      OneKidMoves(s, KidApply(c, s, i, k), i);
    }
  }

  /** Only the joining step changes a child's group. */
  lemma KidStays(c: Config, s: State, i: nat, k: nat)
    requires KidEnabled(c, s, i, k) && !s.kids[i].pc.Join?
    ensures
      var kid, was := KidMove(c, s, i, k).0, s.kids[i];
      && kid.pid == was.pid && kid.pgrp == was.pgrp && kid.leader == was.leader && kid.reaped == was.reaped
      && !kid.pc.Join? && (was.pc.Exited? ==> kid.pc.Exited?) && (was.pc.Broken? ==> kid.pc.Broken?)
  {}

  lemma OneKidMoves(s: State, t: State, i: nat)
    requires GroupInv(s) && i < |s.kids| == |t.kids| && t.parent == s.parent && !s.kids[i].pc.Join?
    requires t.kids == s.kids[i := t.kids[i]]
    requires t.kids[i].pid == s.kids[i].pid && t.kids[i].pgrp == s.kids[i].pgrp && t.kids[i].leader == s.kids[i].leader
    requires t.kids[i].reaped == s.kids[i].reaped && !t.kids[i].pc.Join?
    requires s.kids[i].pc.Exited? ==> t.kids[i].pc.Exited?
    requires s.kids[i].pc.Broken? ==> t.kids[i].pc.Broken?
    ensures GroupInv(t)
  {}

  lemma {:induction false} GroupOutcome(c: Config, s: State, acts: seq<Action>)
    requires GroupInv(s) && Schedule(c, s, acts)
    ensures GroupInv(Outcome(c, s, acts))
    decreases |acts|
  {
    if acts != [] {
      StepKeepsGroup(c, s, acts[0]);
      GroupOutcome(c, Apply(c, s, acts[0]), acts[1..]);
    }
  }

  /** In every interleaving of the two setpgid calls: as long as stage 0 has not been reaped,
      every stage is in stage 0's group before its program runs, all stages are once the shell
      has started the last one, and that group is the one the shell records for the job. */
  lemma OneGroup(c: Config, s: State, acts: seq<Action>)
    requires Schedule(c, Initial(c), acts) && s == Outcome(c, Initial(c), acts)
    requires s.kids != [] && !s.kids[0].reaped
    ensures forall i :: 0 <= i < |s.kids| && Execed(s.kids[i].pc) ==> s.kids[i].pgrp == s.kids[0].pid
    ensures !s.parent.pc.PJoin? ==> forall i :: 0 <= i < |s.kids| ==> s.kids[i].pgrp == s.kids[0].pid
    ensures !s.parent.pc.PJoin? ==> s.parent.pgid == s.kids[0].pid
  {
    GroupOutcome(c, Initial(c), acts);
    forall i | 0 <= i < |s.kids| && Execed(s.kids[i].pc) ensures s.kids[i].pgrp == s.kids[0].pid {
      assert Moved(s, i);
    }
    forall i | 0 <= i < |s.kids| && !s.parent.pc.PJoin? ensures s.kids[i].pgrp == s.kids[0].pid {
      assert Moved(s, i);
    }
  }

  /* ---- Exactly when ---- */

  /** A setpgid call on stage i that the kernel does not refuse because its program runs already:
      the stage's own, or the shell's. */
  predicate JoinCall(s: State, a: Action, i: nat) {
    i < |s.kids| &&
    match a
    case KidStep(j, _) => j == i && s.kids[i].pc.Join?
    case ParentStep(_, _) => s.parent.pc == PJoin(i) && !Execed(s.kids[i].pc) && !s.kids[i].reaped
    case Reap(_) => false
  }

  /** The kernel lets stage i into group g: it founds it, or somebody unreaped is in it. */
  predicate Admits(kids: seq<Kid>, i: nat, g: int) {
    i < |kids| && (kids[i].pid == g || GroupExists(kids, g))
  }

  /** Some setpgid call on stage i finds group g alive. */
  ghost predicate FindsGroup(c: Config, s: State, acts: seq<Action>, i: nat, g: int)
    requires Schedule(c, s, acts)
    decreases |acts|
  {
    acts != [] &&
    ((JoinCall(s, acts[0], i) && Admits(s.kids, i, g)) || FindsGroup(c, Apply(c, s, acts[0]), acts[1..], i, g))
  }

  ghost predicate NotShell(c: Config, s: State) {
    forall i :: 0 <= i < |s.kids| ==> s.kids[i].pid != c.shell
  }

  ghost predicate SamePids(kids: seq<Kid>, kids': seq<Kid>) {
    |kids| <= |kids'| && forall i :: 0 <= i < |kids| ==> kids'[i].pid == kids[i].pid
  }

  lemma StepPids(c: Config, s: State, a: Action)
    requires Enabled(c, s, a) && NotShell(c, s)
    ensures SamePids(s.kids, Apply(c, s, a).kids) && NotShell(c, Apply(c, s, a))
  {}

  lemma {:induction false} OutcomePids(c: Config, s: State, acts: seq<Action>)
    requires Schedule(c, s, acts) && NotShell(c, s)
    ensures SamePids(s.kids, Outcome(c, s, acts).kids)
    decreases |acts|
  {
    if acts != [] {
      StepPids(c, s, acts[0]);
      OutcomePids(c, Apply(c, s, acts[0]), acts[1..]);
    }
  }

  lemma StepKeepsGroup(c: Config, s: State, a: Action)
    requires GroupInv(s) && Enabled(c, s, a)
    ensures GroupInv(Apply(c, s, a))
  {
    match a {
      case ParentStep(x, y) => ParentKeepsGroup(c, s, x, y);
      case KidStep(i, k) => KidKeepsGroup(c, s, i, k);
      case Reap(i) =>
    }
  }

  /** One step puts stage i into stage 0's group if and only if it is such a call. */
  lemma StepJoins(c: Config, s: State, a: Action, i: nat, g: int)
    requires GroupInv(s) && NotShell(c, s) && Enabled(c, s, a)
    requires i < |Apply(c, s, a).kids| && g == Apply(c, s, a).kids[0].pid && g != c.shell
    ensures Apply(c, s, a).kids[i].pgrp == g
      <==> (i < |s.kids| && s.kids[i].pgrp == g) || (JoinCall(s, a, i) && Admits(s.kids, i, g))
  {
    match a
    case ParentStep(x, y) => ParentStepJoins(c, s, x, y, i, g);
    case KidStep(j, k) => KidStepJoins(c, s, j, k, i, g);
    case Reap(_) =>
  }

  lemma ParentStepJoins(c: Config, s: State, a: int, b: int, i: nat, g: int)
    requires GroupInv(s) && ParentEnabled(c, s, a, b)
    requires i < |ParentApply(c, s, a, b).kids| && g == ParentApply(c, s, a, b).kids[0].pid && g != c.shell
    ensures ParentApply(c, s, a, b).kids[i].pgrp == g
      <==> (i < |s.kids| && s.kids[i].pgrp == g) || (JoinCall(s, ParentStep(a, b), i) && Admits(s.kids, i, g))
  {
    if s.parent.pc.PJoin? {
      assert g == if s.parent.pgid == 0 then s.kids[s.parent.pc.i].pid else s.parent.pgid;
    }
  }

  lemma KidStepJoins(c: Config, s: State, j: nat, k: nat, i: nat, g: int)
    requires GroupInv(s) && KidEnabled(c, s, j, k) && i < |s.kids| && g == s.kids[0].pid
    ensures KidApply(c, s, j, k).kids[i].pgrp == g
      <==> s.kids[i].pgrp == g || (JoinCall(s, KidStep(j, k), i) && Admits(s.kids, i, g))
  {
    if s.kids[j].pc.Join? {
      assert g == if s.kids[j].leader != 0 then s.kids[j].leader else s.kids[j].pid;
    }
  }

  lemma {:induction false} JoinsExactly(c: Config, s: State, acts: seq<Action>, i: nat, g: int)
    requires GroupInv(s) && NotShell(c, s) && Schedule(c, s, acts)
    requires i < |Outcome(c, s, acts).kids| && g == Outcome(c, s, acts).kids[0].pid
    ensures Outcome(c, s, acts).kids[i].pgrp == g <==>
      (i < |s.kids| && s.kids[i].pgrp == g) || FindsGroup(c, s, acts, i, g)
    decreases |acts|
  {
    if acts != [] {
      var t := Apply(c, s, acts[0]);
      StepPids(c, s, acts[0]);
      StepKeepsGroup(c, s, acts[0]);
      OutcomePids(c, t, acts[1..]);
      JoinsExactly(c, t, acts[1..], i, g);
      if i < |t.kids| {
        StepJoins(c, s, acts[0], i, g);
      }
    }
  }

  /** Exactly when the stages share a group: stage i is in stage 0's group if and only if one of
      the two setpgid calls on it, made before its program runs, finds that group with an
      unreaped process in it. */
  lemma SharesTheGroupExactly(c: Config, s: State, acts: seq<Action>, i: nat)
    requires Schedule(c, Initial(c), acts) && s == Outcome(c, Initial(c), acts) && i < |s.kids|
    ensures s.kids[i].pgrp == s.kids[0].pid <==> FindsGroup(c, Initial(c), acts, i, s.kids[0].pid)
  {
    JoinsExactly(c, Initial(c), acts, i, s.kids[0].pid);
  }

  /* ---- Without that condition the group can split ---- */

  ghost predicate Leads(c: Config, s: State, t: State) {
    exists acts :: Schedule(c, s, acts) && Outcome(c, s, acts) == t
  }

  lemma LeadsStep(c: Config, s: State, a: Action, t: State, end: State)
    requires Enabled(c, s, a) && Apply(c, s, a) == t && Leads(c, t, end)
    ensures Leads(c, s, end)
  {
    var acts :| Schedule(c, t, acts) && Outcome(c, t, acts) == end;
    assert ([a] + acts)[1..] == acts;
    assert Schedule(c, s, [a] + acts);
  }

  lemma LeadsNowhere(c: Config, s: State)
    ensures Leads(c, s, s)
  {
    assert Schedule(c, s, []);
  }

  /** Two commands that print nothing, no input; the shell is its own group 1. */
  const TWO: Config := Config(2, 1, map[0 := Source, 1 := Sink], 1, "", (i: nat, acc: string, ch: char) => "",
    (i: nat, acc: string) => "")

  const FULL: Table := map[0 := Source, 1 := Sink, 3 := Rd(0), 4 := Wr(0)]

  const PIPED: Table := map[0 := Source, 1 := Wr(0)]

  function At(pc: ParentPc, kids: seq<Kid>): State {
    State(Parent(pc, FULL, [(3, 4)], 100), kids, [""], "", "")
  }

  function First(pc: KidPc, table: Table, reaped: bool): Kid { Kid(pc, table, 100, 100, 0, reaped) }

  /** Stage 1's two chances to enter group 100 both come after stage 0 has been reaped. */
  const SPLIT: State := At(PFork(2), [First(Exited(""), map[], true), Kid(DupIn, FULL, 200, 1, 100, false)])

  lemma SplitSecond()
    ensures Leads(TWO, At(PFork(1), [First(Exited(""), map[], true)]), SPLIT)
  {
    var gone := First(Exited(""), map[], true);
    LeadsNowhere(TWO, SPLIT);
    LeadsStep(TWO, At(PFork(2), [gone, Kid(Join, FULL, 200, 1, 100, false)]), KidStep(1, 0), SPLIT, SPLIT);
    LeadsStep(TWO, At(PJoin(1), [gone, Kid(Join, FULL, 200, 1, 100, false)]), ParentStep(0, 0),
              At(PFork(2), [gone, Kid(Join, FULL, 200, 1, 100, false)]), SPLIT);
    LeadsStep(TWO, At(PFork(1), [gone]), ParentStep(200, 0),
        At(PJoin(1), [gone, Kid(Join, FULL, 200, 1, 100, false)]), SPLIT);
  }

  lemma SplitFirstRuns()
    ensures Leads(TWO, At(PFork(1), [First(Exec, PIPED, false)]), SPLIT)
  {
    SplitSecond();
    LeadsStep(TWO, At(PFork(1), [First(Exited(""), map[], false)]), Reap(0),
        At(PFork(1), [First(Exited(""), map[], true)]), SPLIT);
    LeadsStep(TWO, At(PFork(1), [First(Run("", "", true), PIPED, false)]), KidStep(0, 0),
        At(PFork(1), [First(Exited(""), map[], false)]), SPLIT);
    LeadsStep(TWO, At(PFork(1), [First(Run("", "", false), PIPED, false)]), KidStep(0, 0),
        At(PFork(1), [First(Run("", "", true), PIPED, false)]), SPLIT);
    LeadsStep(TWO, At(PFork(1), [First(Exec, PIPED, false)]), KidStep(0, 0),
        At(PFork(1), [First(Run("", "", false), PIPED, false)]), SPLIT);
  }

  lemma SplitFirstSetup()
    ensures Leads(TWO, At(PFork(1), [First(DupIn, FULL, false)]), SPLIT)
  {
    SplitFirstCloses();
    var dup: Table := map[0 := Source, 1 := Wr(0), 3 := Rd(0), 4 := Wr(0)];
    assert Dup2(FULL, 4, 1) == dup;
    LeadsStep(TWO, At(PFork(1), [First(DupOut, FULL, false)]), KidStep(0, 0),
        At(PFork(1), [First(CloseRd(0), dup, false)]), SPLIT);
    LeadsStep(TWO, At(PFork(1), [First(DupIn, FULL, false)]), KidStep(0, 0),
        At(PFork(1), [First(DupOut, FULL, false)]), SPLIT);
  }

  lemma SplitFirstLastClose()
    ensures Leads(TWO, At(PFork(1), [First(CloseWr(0), map[0 := Source, 1 := Wr(0), 4 := Wr(0)], false)]), SPLIT)
  {
    SplitFirstRuns();
    var half: Table := map[0 := Source, 1 := Wr(0), 4 := Wr(0)];
    assert half - {4} == PIPED;
    LeadsStep(TWO, At(PFork(1), [First(CloseRd(1), PIPED, false)]), KidStep(0, 0),
        At(PFork(1), [First(Exec, PIPED, false)]), SPLIT);
    LeadsStep(TWO, At(PFork(1), [First(CloseWr(0), half, false)]), KidStep(0, 0),
        At(PFork(1), [First(CloseRd(1), PIPED, false)]), SPLIT);
  }

  lemma SplitFirstCloses()
    ensures Leads(TWO, At(PFork(1),
      [First(CloseRd(0), map[0 := Source, 1 := Wr(0), 3 := Rd(0), 4 := Wr(0)], false)]), SPLIT)
  {
    SplitFirstLastClose();
    var dup: Table := map[0 := Source, 1 := Wr(0), 3 := Rd(0), 4 := Wr(0)];
    var half: Table := map[0 := Source, 1 := Wr(0), 4 := Wr(0)];
    assert dup - {3} == half;
    LeadsStep(TWO, At(PFork(1), [First(CloseRd(0), dup, false)]), KidStep(0, 0),
        At(PFork(1), [First(CloseWr(0), half, false)]), SPLIT);
  }

  const FORKED: State := State(Parent(PJoin(0), FULL, [(3, 4)], 0), [Kid(Join, FULL, 100, 1, 0, false)], [""], "", "")

  lemma SplitFirstForked()
    ensures Leads(TWO, FORKED, SPLIT)
  {
    SplitFirstSetup();
    var s4 := At(PFork(1), [Kid(Join, FULL, 100, 100, 0, false)]);
    LeadsStep(TWO, s4, KidStep(0, 0), At(PFork(1), [First(DupIn, FULL, false)]), SPLIT);
    LeadsStep(TWO, FORKED, ParentStep(0, 0), s4, SPLIT);
  }

  lemma SplitPiped()
    ensures Leads(TWO, State(Parent(PPipe(1), FULL, [(3, 4)], 0), [], [""], "", ""), SPLIT)
  {
    SplitFirstForked();
    var s1 := State(Parent(PPipe(1), FULL, [(3, 4)], 0), [], [""], "", "");
    var s2 := Apply(TWO, s1, ParentStep(0, 0));
    assert Apply(TWO, s2, ParentStep(100, 0)) == FORKED;
    LeadsStep(TWO, s2, ParentStep(100, 0), FORKED, SPLIT);
    LeadsStep(TWO, s1, ParentStep(0, 0), s2, SPLIT);
  }

  /** The pipeline does not always share one group: if stage 0 ends and is reaped before stage 1
      is forked, group 100 is gone, both setpgid calls fail, and stage 1 stays with the shell. */
  lemma GroupCanSplit()
    ensures Leads(TWO, Initial(TWO), SPLIT)
    ensures SPLIT.kids[0].reaped && SPLIT.kids[1].pgrp == TWO.shell != SPLIT.kids[0].pid
  {
    SplitPiped();
    var s0 := Initial(TWO);
    var s1 := Apply(TWO, s0, ParentStep(3, 4));
    assert s1.parent.table == FULL && s1.parent.pipes == [(3, 4)] && s1.buffers == [""];
    assert s1 == State(Parent(PPipe(1), FULL, [(3, 4)], 0), [], [""], "", "");
    LeadsStep(TWO, s0, ParentStep(3, 4), s1, SPLIT);
  }
}
