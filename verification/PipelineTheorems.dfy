/** What every pipeline computes, in every interleaving: it ends, it does not get stuck on the
    way, and what it has printed is the composition of its commands. */
module PipelineTheorems {
  import opened Pipeline
  import opened PipelineWiring
  import opened PipelineData

  ghost predicate Reachable(c: Config, s: State, acts: seq<Action>) {
    Valid(c) && Schedule(c, Initial(c), acts) && s == Outcome(c, Initial(c), acts)
  }

  lemma ReachableInv(c: Config, s: State, acts: seq<Action>)
    requires Reachable(c, s, acts)
    ensures Inv(c, s)
  {
    InitialInv(c);
    OutcomeInv(c, Initial(c), acts);
  }

  /** All processes are done. (The shell may or may not have reaped them.) */
  ghost predicate Over(s: State) {
    s.parent.pc.PDone? && forall i :: 0 <= i < |s.kids| ==> s.kids[i].pc.Exited?
  }

  /* ---- Wiring ---- */

  /** In every interleaving of the shell and its children, a stage whose program runs has the
      intended table and not one descriptor more. */
  lemma WiredAtExec(c: Config, s: State, acts: seq<Action>, i: nat)
    requires Reachable(c, s, acts) && i < |s.kids| && s.kids[i].pc.Run?
    ensures s.kids[i].table.Keys == c.base.Keys
    ensures s.kids[i].table[0] == if i == 0 then Source else Rd(i - 1)
    ensures s.kids[i].table[1] == if i + 1 < c.n then Wr(i) else Sink
    ensures forall fd :: fd in c.base && fd != 0 && fd != 1 ==> s.kids[i].table[fd] == c.base[fd]
  {
    ReachableInv(c, s, acts);
    assert KidWired(c, s.parent.pipes, i, s.kids[i]);
  }

  /** When the shell has closed its ends and every stage has started, pipe p has exactly one
      writer and one reader, so end of file and broken pipe mean what they should: stage p, or
      stage p+1, is over. Before that they cannot happen at all too early. */
  lemma OneWriterOneReader(c: Config, s: State, acts: seq<Action>, p: nat)
    requires Reachable(c, s, acts) && p < |s.parent.pipes|
    ensures NoWriter(s.parent.table, s.kids, p) ==> p < |s.kids| && s.kids[p].pc.Exited?
    ensures NoReader(s.parent.table, s.kids, p) ==> p + 1 < |s.kids| && s.kids[p + 1].pc.Exited?
    ensures SetUp(s) ==>
      && (forall k, fd :: 0 <= k < |s.kids| && fd in s.kids[k].table && s.kids[k].table[fd] == Wr(p) ==>
           k == p && fd == 1)
      && (forall k, fd :: 0 <= k < |s.kids| && fd in s.kids[k].table && s.kids[k].table[fd] == Rd(p) ==>
           k == p + 1 && fd == 0)
      && (NoWriter(s.parent.table, s.kids, p) <==> p < |s.kids| && s.kids[p].pc.Exited?)
  {
    ReachableInv(c, s, acts);
    PipeStaysAlive(c, s, p);
    assert FlowAt(c, s.kids, s.buffers, s.out, p) && FlowAt(c, s.kids, s.buffers, s.out, p + 1);
    if SetUp(s) {
      SoleHolders(c, s, p);
    }
  }

  /* ---- Meaning ---- */

  /** A stage that has seen its end of file has read exactly the stream meant for it. */
  lemma {:induction false} ReadItAll(c: Config, s: State, i: nat)
    requires Valid(c) && Inv(c, s) && i < |s.kids| && AtEof(s.kids[i].pc)
    ensures s.kids[i].pc.acc == Stream(c, i)
    decreases i
  {
    assert EofAt(s.kids, s.buffers, s.src, i);
    if i > 0 {
      ReadItAll(c, s, i - 1);
      assert FlowAt(c, s.kids, s.buffers, s.out, i - 1);
    }
  }

  lemma LastStageWrote(c: Config, s: State)
    requires Valid(c) && Inv(c, s) && |s.kids| == c.n && s.kids[c.n - 1].pc.Exited?
    ensures s.out == Stream(c, c.n)
  {
    var i := c.n - 1;
    ReadItAll(c, s, i);
    assert FlowAt(c, s.kids, s.buffers, s.out, i);
  }

  /** The meaning of a pipeline: whenever all processes are done, in whatever order they ran and
      however their reads and writes were cut up, the output is the composition of the commands
      applied to the input. */
  lemma PipelineMeaning(c: Config, s: State, acts: seq<Action>)
    requires Reachable(c, s, acts) && Over(s)
    ensures s.out == Stream(c, c.n)
  {
    ReachableInv(c, s, acts);
    LastStageWrote(c, s);
  }

  lemma ProducedPrefix(c: Config, s: State, i: nat)
    requires c.n > 0 && i < |s.kids| && FlowAt(c, s.kids, s.buffers, s.out, i)
    requires Owed(c, i, Consumed(s.kids, i), false) <= Stream(c, i + 1)
    requires AtEof(s.kids[i].pc) ==> s.kids[i].pc.acc == Stream(c, i)
    ensures Produced(s.kids, s.buffers, s.out, c.n, i) <= Stream(c, i + 1)
  {
    var kid := s.kids[i];
    var p := Produced(s.kids, s.buffers, s.out, c.n, i);
    match kid.pc
    case Run(acc, pend, eof) => assert p <= p + pend;
    case _ =>
  }

  /** At every moment of every run, what a stage has read and what has been printed are prefixes
      of what they will be: no output is ever taken back. */
  lemma {:induction false} ReadsArePrefixes(c: Config, s: State, i: nat)
    requires Valid(c) && Inv(c, s) && i < |s.kids|
    ensures Consumed(s.kids, i) <= Stream(c, i)
    ensures Produced(s.kids, s.buffers, s.out, c.n, i) <= Stream(c, i + 1)
    decreases i
  {
    assert FlowAt(c, s.kids, s.buffers, s.out, i);
    if i > 0 {
      ReadsArePrefixes(c, s, i - 1);
    }
    OwedPrefix(c, i, Consumed(s.kids, i), Stream(c, i));
    if AtEof(s.kids[i].pc) {
      ReadItAll(c, s, i);
    }
    ProducedPrefix(c, s, i);
  }

  lemma OutputIsAPrefix(c: Config, s: State, acts: seq<Action>)
    requires Reachable(c, s, acts)
    ensures s.out <= Stream(c, c.n)
  {
    ReachableInv(c, s, acts);
    if |s.kids| == c.n {
      ReadsArePrefixes(c, s, c.n - 1);
    } else {
      assert IdleAt(s.kids, s.buffers, s.out, c.n, c.n - 1);
    }
  }

  /** Nobody dies of SIGPIPE. */
  lemma NobodyIsKilled(c: Config, s: State, acts: seq<Action>, i: nat)
    requires Reachable(c, s, acts) && i < |s.kids|
    ensures !s.kids[i].pc.Broken?
  {
    ReachableInv(c, s, acts);
    assert FlowAt(c, s.kids, s.buffers, s.out, i);
  }

  /* ---- No deadlock ---- */

  /** Some process can make a step (reaping apart). */
  ghost predicate CanStep(c: Config, s: State) {
    (exists a, b :: ParentEnabled(c, s, a, b)) || exists i, k :: KidEnabled(c, s, i, k)
  }

  /** A table has room for two more descriptors: some numbers are beyond all of its own. */
  lemma TwoFreshNumbers(t: Table) returns (a: int, b: int)
    ensures a >= 0 && b >= 0 && a != b && a !in t && b !in t
  {
    a := Above(t.Keys);
    b := a + 1;
  }

  lemma {:induction false} Above(xs: set<int>) returns (a: nat)
    ensures forall x :: x in xs ==> x < a
    decreases xs
  {
    if x :| x in xs {
      a := Above(xs - {x});
      assert forall y :: y in xs ==> y == x || y in xs - {x};
      if x >= a {
        a := x + 1;
      }
    } else {
      a := 0;
    }
  }

  function PidsOf(kids: seq<Kid>): set<int> {
    set k | 0 <= k < |kids| :: kids[k].pid
  }

  function GroupsOf(kids: seq<Kid>): set<int> {
    set k | 0 <= k < |kids| :: kids[k].pgrp
  }

  lemma ParentCanStep(c: Config, s: State)
    requires Valid(c) && WiringInv(c, s) && !s.parent.pc.PDone?
    ensures exists a, b :: ParentEnabled(c, s, a, b)
  {
    var a, b := TwoFreshNumbers(s.parent.table);
    if s.parent.pc.PFork? {
      a := Above(PidsOf(s.kids) + GroupsOf(s.kids) + {c.shell, 0});
      forall k | 0 <= k < |s.kids| ensures s.kids[k].pid < a && s.kids[k].pgrp < a {
        assert s.kids[k].pid in PidsOf(s.kids) && s.kids[k].pgrp in GroupsOf(s.kids);
      }
      assert 0 in PidsOf(s.kids) + GroupsOf(s.kids) + {c.shell, 0};
    }
    assert ParentEnabled(c, s, a, b);
  }

  /** Stage i is running and not waiting for its input. */
  ghost predicate Fed(s: State, i: nat) {
    i < |s.kids| && s.kids[i].pc.Run? && (s.kids[i].pc.pend != "" || s.kids[i].pc.eof || i == 0 ||
      (i - 1 < |s.buffers| && (s.buffers[i - 1] != "" || NoWriter(s.parent.table, s.kids, i - 1))))
  }

  /** If a stage is fed, then it or a stage after it can step: if its pipe is full, the next
      stage has something to read. */
  lemma {:induction false} FedLeadsOn(c: Config, s: State, i: nat)
    requires Valid(c) && Inv(c, s) && SetUp(s) && Fed(s, i)
    ensures exists j, k :: KidEnabled(c, s, j, k)
    decreases c.n - i
  {
    var kid := s.kids[i];
    Streams(c, s, i);
    if kid.pc.pend == "" {
      assert KidEnabled(c, s, i, 1);
    } else if i + 1 == c.n || |s.buffers[i]| < c.cap {
      assert KidEnabled(c, s, i, 1);
    } else {
      FullFeedsTheNext(c, s, i);
      FedLeadsOn(c, s, i + 1);
    }
  }

  /** A full pipe feeds the stage behind it. */
  lemma FullFeedsTheNext(c: Config, s: State, i: nat)
    requires Valid(c) && Inv(c, s) && SetUp(s) && i < |s.kids| && s.kids[i].pc.Run?
    requires i + 1 < c.n && i < |s.buffers| && |s.buffers[i]| >= c.cap
    ensures Fed(s, i + 1)
  {
    SoleHolders(c, s, i);
    NeverBroken(c, s, i);
    assert EofAt(s.kids, s.buffers, s.src, i + 1);
    assert Execed(s.kids[i + 1].pc);
  }

  /** The first stage that is not over is fed. */
  lemma {:induction false} SomeoneIsFed(c: Config, s: State, i: nat)
    requires Valid(c) && Inv(c, s) && SetUp(s) && i < |s.kids| && !s.kids[i].pc.Exited?
    ensures exists j :: Fed(s, j)
    decreases i
  {
    assert FlowAt(c, s.kids, s.buffers, s.out, i) && Execed(s.kids[i].pc);
    if i == 0 {
      assert Fed(s, 0);
    } else if s.kids[i - 1].pc.Exited? {
      SoleHolders(c, s, i - 1);
      assert Fed(s, i);
    } else {
      SomeoneIsFed(c, s, i - 1);
    }
  }

  lemma SetupCanStep(c: Config, s: State, i: nat)
    requires Valid(c) && WiringInv(c, s) && i < |s.kids| && !Execed(s.kids[i].pc)
    ensures KidEnabled(c, s, i, 0)
  {
    assert KidWired(c, s.parent.pipes, i, s.kids[i]);
  }

  /** No deadlock: until the shell has set everything up and every stage has ended, some process
      can step, whatever the sizes of pipes, inputs and outputs. */
  lemma NoDeadlock(c: Config, s: State, acts: seq<Action>)
    requires Reachable(c, s, acts) && !Over(s)
    ensures CanStep(c, s)
  {
    ReachableInv(c, s, acts);
    if !s.parent.pc.PDone? {
      ParentCanStep(c, s);
    } else if exists i :: 0 <= i < |s.kids| && !Execed(s.kids[i].pc) {
      var i :| 0 <= i < |s.kids| && !Execed(s.kids[i].pc);
      SetupCanStep(c, s, i);
    } else {
      var i :| 0 <= i < |s.kids| && !s.kids[i].pc.Exited?;
      SomeoneIsFed(c, s, i);
      var j :| Fed(s, j);
      FedLeadsOn(c, s, j);
    }
  }

  /* ---- Every run ends ---- */

  /** System calls a child has still to make before its program runs. */
  function SetupLeft(pc: KidPc, pipes: nat): nat {
    match pc
    case Join => 2 * pipes + 5
    case DupIn => 2 * pipes + 4
    case DupOut => 2 * pipes + 3
    case CloseRd(j) => if j <= pipes then 2 * (pipes - j) + 2 else 0
    case CloseWr(j) => if j < pipes then 2 * (pipes - j) + 1 else 0
    case _ => 1
  }

  function Left(total: nat, done: nat): nat { if done <= total then total - done else 0 }

  /** The steps stage i can still take: its set-up, the characters it has to read and to write,
      its end of file, its exit, and being reaped. */
  function KidWork(c: Config, kids: seq<Kid>, buffers: seq<string>, out: string, i: nat): nat
    requires c.n > 0
  {
    var total := |Stream(c, i)| + |Stream(c, i + 1)| + 3;
    if i >= |kids| then SetupLeft(Join, c.n - 1) + total
    else
      match kids[i].pc
      case Run(acc, pend, eof) =>
        Left(|Stream(c, i)|, |acc|) + Left(|Stream(c, i + 1)|, |Produced(kids, buffers, out, c.n, i)|) +
        (if eof then 0 else 1) + 2
      case Exited(_) => if kids[i].reaped then 0 else 1
      case Broken => 0
      case pc => SetupLeft(pc, c.n - 1) + total
  }

  function Sum(shares: seq<nat>): nat {
    if shares == [] then 0 else Sum(shares[..|shares| - 1]) + shares[|shares| - 1]
  }

  function Shares(c: Config, s: State): (r: seq<nat>)
    requires c.n > 0
    ensures |r| == c.n && forall i :: 0 <= i < c.n ==> r[i] == KidWork(c, s.kids, s.buffers, s.out, i)
  {
    seq(c.n, i requires 0 <= i < c.n => KidWork(c, s.kids, s.buffers, s.out, i))
  }

  function ParentWork(n: nat, pc: ParentPc): nat
    requires n > 0
  {
    match pc
    case PPipe(i) => if i < n then (n - i) + 4 * n + 2 else 0
    case PFork(i) => if i <= n then 2 * (n - i) + 2 * n + 2 else 0
    case PJoin(i) => if i < n then 2 * (n - i) + 2 * n + 1 else 0
    case PCloseRd(i) => if i < n then 2 * (n - i) + 1 else 0
    case PCloseWr(i) => if i < n then 2 * (n - i) else 0
    case PAddJob => 1
    case PDone => 0
  }

  function Work(c: Config, s: State): nat
    requires c.n > 0
  {
    ParentWork(c.n, s.parent.pc) + Sum(Shares(c, s))
  }

  /** A sum drops when one share drops and no other changes. */
  lemma {:induction false} SumDrops(before: seq<nat>, after: seq<nat>, i: nat)
    requires |before| == |after| && i < |before| && after[i] < before[i]
    requires forall j :: 0 <= j < |before| && j != i ==> after[j] == before[j]
    ensures Sum(after) < Sum(before)
  {
    var m := |before| - 1;
    if i == m {
      assert before[..m] == after[..m];
    } else {
      SumDrops(before[..m], after[..m], i);
    }
  }

  lemma SameWork(c: Config, s: State, t: State, j: nat)
    requires c.n > 0 && |t.kids| == |s.kids| && j < c.n
    requires j < |s.kids| ==> t.kids[j].pc == s.kids[j].pc && t.kids[j].reaped == s.kids[j].reaped
    requires Produced(t.kids, t.buffers, t.out, c.n, j) == Produced(s.kids, s.buffers, s.out, c.n, j)
    ensures KidWork(c, t.kids, t.buffers, t.out, j) == KidWork(c, s.kids, s.buffers, s.out, j)
  {}

  /** A write step, seen from outside. */
  lemma WriteMoves(c: Config, s: State, i: nat, k: nat)
    requires KidEnabled(c, s, i, k) && s.kids[i].pc.Run? && s.kids[i].pc.pend != ""
    requires 1 in s.kids[i].table && s.kids[i].table[1] == if i + 1 < c.n then Wr(i) else Sink
    requires i + 1 < c.n ==> !NoReader(s.parent.table, s.kids, i)
    ensures
      var ((kid, e), p) := (KidMove(c, s, i, k), s.kids[i].pc);
      && 1 <= k <= |p.pend| && kid.pc == Run(p.acc, p.pend[k..], p.eof)
      && e == if i + 1 < c.n then PutPipe(i, p.pend[..k]) else PutSink(p.pend[..k])
  {}

  /** A read step, or an exit, seen from outside. */
  lemma ReadMoves(c: Config, s: State, i: nat, k: nat)
    requires KidEnabled(c, s, i, k) && s.kids[i].pc.Run? && s.kids[i].pc.pend == ""
    requires 0 in s.kids[i].table && s.kids[i].table[0] == if i == 0 then Source else Rd(i - 1)
    ensures
      var ((kid, e), p) := (KidMove(c, s, i, k), s.kids[i].pc);
      if p.eof then kid.pc == Exited(p.acc) && e == Nothing
      else if e == Nothing then kid.pc == Run(p.acc, c.last(i, p.acc), true)
      else
        && kid.pc.Run? && !kid.pc.eof
        && (i == 0 ==> 1 <= k <= |s.src| && e == TakeSource(k) && kid.pc.acc == p.acc + s.src[..k])
        && (i > 0 ==> i - 1 < |s.buffers| && 1 <= k <= |s.buffers[i - 1]| && e == TakePipe(i - 1, k))
        && (i > 0 ==> kid.pc.acc == p.acc + s.buffers[i - 1][..k])
  {}

  lemma SetupQuiet(c: Config, s: State, i: nat, k: nat)
    requires KidEnabled(c, s, i, k) && !s.kids[i].pc.Run?
    ensures
      var (kid, e) := KidMove(c, s, i, k);
      e == Nothing && Consumed([kid], 0) == Consumed(s.kids, i)
  {}

  lemma KidStepProduced(c: Config, s: State, i: nat, k: nat, j: nat)
    requires Valid(c) && Inv(c, s) && KidEnabled(c, s, i, k) && j != i && j < c.n
    ensures
      var t := KidApply(c, s, i, k);
      Produced(t.kids, t.buffers, t.out, c.n, j) == Produced(s.kids, s.buffers, s.out, c.n, j)
  {
    if !s.kids[i].pc.Run? {
      SetupQuiet(c, s, i, k);
      QuietProduced(s.kids, i, KidMove(c, s, i, k).0, s.buffers, s.out, c.n, j);
    } else {
      Streams(c, s, i);
      if s.kids[i].pc.pend != "" {
        if i + 1 < c.n {
          NeverBroken(c, s, i);
        }
        WriteStepProduced(c, s, i, k, j);
      } else {
        ReadStepProduced(c, s, i, k, j);
      }
    }
  }

  lemma WriteStepProduced(c: Config, s: State, i: nat, k: nat, j: nat)
    requires KidEnabled(c, s, i, k) && s.kids[i].pc.Run? && s.kids[i].pc.pend != "" && j != i && j < c.n
    requires 1 in s.kids[i].table && s.kids[i].table[1] == if i + 1 < c.n then Wr(i) else Sink
    requires i + 1 < c.n ==> !NoReader(s.parent.table, s.kids, i)
    requires i < c.n
    ensures
      var t := KidApply(c, s, i, k);
      Produced(t.kids, t.buffers, t.out, c.n, j) == Produced(s.kids, s.buffers, s.out, c.n, j)
  {
    WriteMoves(c, s, i, k);
    WrittenProduced(s.kids, i, KidMove(c, s, i, k).0, s.buffers, s.kids[i].pc.pend[..k], s.out, c.n, j);
  }

  lemma ReadStepProduced(c: Config, s: State, i: nat, k: nat, j: nat)
    requires KidEnabled(c, s, i, k) && s.kids[i].pc.Run? && s.kids[i].pc.pend == "" && j != i && j < c.n
    requires 0 in s.kids[i].table && s.kids[i].table[0] == if i == 0 then Source else Rd(i - 1)
    ensures
      var t := KidApply(c, s, i, k);
      Produced(t.kids, t.buffers, t.out, c.n, j) == Produced(s.kids, s.buffers, s.out, c.n, j)
  {
    var (kid, e) := KidMove(c, s, i, k);
    ReadMoves(c, s, i, k);
    if e.TakePipe? {
      TakenProduced(s.kids, i, kid, s.buffers, k, s.out, c.n, j);
    } else {
      QuietProduced(s.kids, i, kid, s.buffers, s.out, c.n, j);
    }
  }

  /** A stage's step changes no other stage's share. */
  lemma KidStepFrame(c: Config, s: State, i: nat, k: nat, j: nat)
    requires Valid(c) && Inv(c, s) && KidEnabled(c, s, i, k) && j != i && j < c.n
    ensures
      var t := KidApply(c, s, i, k);
      KidWork(c, t.kids, t.buffers, t.out, j) == KidWork(c, s.kids, s.buffers, s.out, j)
  {
    KidStepProduced(c, s, i, k, j);
    SameWork(c, s, KidApply(c, s, i, k), j);
  }

  lemma SetupStepWorks(c: Config, s: State, i: nat, k: nat)
    requires Valid(c) && KidEnabled(c, s, i, k) && !s.kids[i].pc.Run? && KidWired(c, s.parent.pipes, i, s.kids[i])
    ensures
      var t := KidApply(c, s, i, k);
      KidWork(c, t.kids, t.buffers, t.out, i) < KidWork(c, s.kids, s.buffers, s.out, i)
  {}

  lemma KidStepWorks(c: Config, s: State, i: nat, k: nat)
    requires Valid(c) && Inv(c, s) && KidEnabled(c, s, i, k)
    ensures
      var t := KidApply(c, s, i, k);
      KidWork(c, t.kids, t.buffers, t.out, i) < KidWork(c, s.kids, s.buffers, s.out, i)
  {
    var t := KidApply(c, s, i, k);
    if s.kids[i].pc.Run? {
      StepKeepsInv(c, s, KidStep(i, k));
      ReadsArePrefixes(c, s, i);
      ReadsArePrefixes(c, t, i);
      RunStepWorks(c, s, i, k);
    } else {
      SetupStepWorks(c, s, i, k);
    }
  }

  /** A read makes what was read longer, a write what was written. */
  lemma RunStepWorks(c: Config, s: State, i: nat, k: nat)
    requires Valid(c) && Inv(c, s) && KidEnabled(c, s, i, k) && s.kids[i].pc.Run?
    ensures
      var t := KidApply(c, s, i, k);
      var before, after := |Produced(s.kids, s.buffers, s.out, c.n, i)|, |Produced(t.kids, t.buffers, t.out, c.n, i)|;
      match t.kids[i].pc
      case Run(acc, pend, eof) =>
        || (before < after && acc == s.kids[i].pc.acc && eof == s.kids[i].pc.eof)
        || (before == after && |acc| > |s.kids[i].pc.acc| && eof == s.kids[i].pc.eof)
        || (before == after && acc == s.kids[i].pc.acc && eof && !s.kids[i].pc.eof)
      case Exited(_) => t.kids[i].reaped == s.kids[i].reaped
      case _ => false
  {
    Streams(c, s, i);
    if s.kids[i].pc.pend != "" {
      if i + 1 < c.n {
        NeverBroken(c, s, i);
      }
      WriteLengthens(c, s, i, k);
    } else {
      ReadLengthens(c, s, i, k);
    }
  }

  lemma WriteLengthens(c: Config, s: State, i: nat, k: nat)
    requires KidEnabled(c, s, i, k) && s.kids[i].pc.Run? && s.kids[i].pc.pend != "" && i < c.n
    requires 1 in s.kids[i].table && s.kids[i].table[1] == if i + 1 < c.n then Wr(i) else Sink
    requires i + 1 < c.n ==> !NoReader(s.parent.table, s.kids, i)
    ensures
      var (t, p) := (KidApply(c, s, i, k), s.kids[i].pc);
      && t.kids[i].pc == Run(p.acc, p.pend[k..], p.eof) && |t.kids| == |s.kids|
      && k > 0
      && |Produced(t.kids, t.buffers, t.out, c.n, i)| == |Produced(s.kids, s.buffers, s.out, c.n, i)| + k
  {
    WriteMoves(c, s, i, k);
  }

  lemma ReadLengthens(c: Config, s: State, i: nat, k: nat)
    requires KidEnabled(c, s, i, k) && s.kids[i].pc.Run? && s.kids[i].pc.pend == "" && i < c.n
    requires 0 in s.kids[i].table && s.kids[i].table[0] == if i == 0 then Source else Rd(i - 1)
    ensures
      var (t, p) := (KidApply(c, s, i, k), s.kids[i].pc);
      && |t.kids| == |s.kids|
      && |Produced(t.kids, t.buffers, t.out, c.n, i)| == |Produced(s.kids, s.buffers, s.out, c.n, i)|
      && (p.eof ==> t.kids[i].pc.Exited? && t.kids[i].reaped == s.kids[i].reaped)
      && (!p.eof ==> t.kids[i].pc.Run?)
      && (!p.eof && t.kids[i].pc.eof ==> t.kids[i].pc.acc == p.acc)
      && (!p.eof && !t.kids[i].pc.eof ==> |t.kids[i].pc.acc| > |p.acc|)
  {
    ReadMoves(c, s, i, k);
  }

  lemma ReapWorks(c: Config, s: State, i: nat, j: nat)
    requires Valid(c) && Inv(c, s) && Enabled(c, s, Reap(i)) && j < c.n
    ensures
      var t := Apply(c, s, Reap(i));
      if j == i then KidWork(c, t.kids, t.buffers, t.out, j) < KidWork(c, s.kids, s.buffers, s.out, j)
      else KidWork(c, t.kids, t.buffers, t.out, j) == KidWork(c, s.kids, s.buffers, s.out, j)
  {
    var t := Apply(c, s, Reap(i));
    QuietProduced(s.kids, i, s.kids[i].(reaped := true), s.buffers, s.out, c.n, j);
    if j == i {
      assert FlowAt(c, s.kids, s.buffers, s.out, i);
      assert s.kids[i].pc.Exited?;
    } else {
      SameWork(c, s, t, j);
    }
  }

  /** A stage that has just been forked has as much to do as it had before. */
  lemma ForkFrame(c: Config, kids: seq<Kid>, kid: Kid, buffers: seq<string>, out: string, j: nat)
    requires c.n > 0 && j < c.n && kid.pc == Join
    ensures KidWork(c, kids + [kid], buffers, out, j) == KidWork(c, kids, buffers, out, j)
  {
    assert Consumed(kids + [kid], j + 1) == Consumed(kids, j + 1);
  }

  /** A new pipe is empty. */
  lemma PipeFrame(c: Config, kids: seq<Kid>, buffers: seq<string>, out: string, j: nat)
    requires c.n > 0 && j < c.n
    ensures KidWork(c, kids, buffers + [""], out, j) == KidWork(c, kids, buffers, out, j)
  {
    assert Produced(kids, buffers + [""], out, c.n, j) == Produced(kids, buffers, out, c.n, j);
  }

  lemma ParentStepFrame(c: Config, s: State, a: int, b: int, j: nat)
    requires Valid(c) && Inv(c, s) && ParentEnabled(c, s, a, b) && j < c.n
    ensures
      var t := ParentApply(c, s, a, b);
      KidWork(c, t.kids, t.buffers, t.out, j) == KidWork(c, s.kids, s.buffers, s.out, j)
  {
    var t := ParentApply(c, s, a, b);
    match s.parent.pc {
      case PPipe(_) => PipeFrame(c, s.kids, s.buffers, s.out, j);
      case PFork(i) =>
        if i < c.n {
          ForkFrame(c, s.kids, Kid(Join, s.parent.table, a, c.shell, s.parent.pgid, false), s.buffers, s.out, j);
        }
      case PJoin(_) =>
        ParentJoinKeepsTables(c, s, a, b);
        assert Consumed(t.kids, j + 1) == Consumed(s.kids, j + 1);
        SameWork(c, s, t, j);
      case _ =>
    }
  }

  lemma ParentWorks(c: Config, s: State, a: int, b: int)
    requires Valid(c) && Inv(c, s) && ParentEnabled(c, s, a, b)
    ensures ParentWork(c.n, ParentApply(c, s, a, b).parent.pc) < ParentWork(c.n, s.parent.pc)
  {}

  lemma ParentStepWorks(c: Config, s: State, a: int, b: int)
    requires Valid(c) && Inv(c, s) && ParentEnabled(c, s, a, b)
    ensures Work(c, ParentApply(c, s, a, b)) < Work(c, s)
  {
    var before, after := Shares(c, s), Shares(c, ParentApply(c, s, a, b));
    forall j | 0 <= j < c.n ensures after[j] == before[j] {
      ParentStepFrame(c, s, a, b, j);
    }
    assert after == before;
    ParentWorks(c, s, a, b);
  }

  lemma KidsStepWorks(c: Config, s: State, i: nat, k: nat)
    requires Valid(c) && Inv(c, s) && KidEnabled(c, s, i, k)
    ensures Work(c, KidApply(c, s, i, k)) < Work(c, s)
  {
    var before, after := Shares(c, s), Shares(c, KidApply(c, s, i, k));
    forall j | 0 <= j < c.n && j != i ensures after[j] == before[j] {
      KidStepFrame(c, s, i, k, j);
    }
    KidStepWorks(c, s, i, k);
    SumDrops(before, after, i);
  }

  lemma ReapStepWorks(c: Config, s: State, i: nat)
    requires Valid(c) && Inv(c, s) && Enabled(c, s, Reap(i))
    ensures Work(c, Apply(c, s, Reap(i))) < Work(c, s)
  {
    var before, after := Shares(c, s), Shares(c, Apply(c, s, Reap(i)));
    forall j | 0 <= j < c.n ensures if j == i then after[j] < before[j] else after[j] == before[j] {
      ReapWorks(c, s, i, j);
    }
    SumDrops(before, after, i);
  }

  /** Every step of every process leaves less to do. */
  lemma StepWorks(c: Config, s: State, a: Action)
    requires Valid(c) && Inv(c, s) && Enabled(c, s, a)
    ensures Work(c, Apply(c, s, a)) < Work(c, s)
  {
    match a {
      case ParentStep(x, y) => ParentStepWorks(c, s, x, y);
      case KidStep(i, k) => KidsStepWorks(c, s, i, k);
      case Reap(i) => ReapStepWorks(c, s, i);
    }
  }

  lemma {:induction false} WorkBounds(c: Config, s: State, acts: seq<Action>)
    requires Valid(c) && Inv(c, s) && Schedule(c, s, acts)
    ensures |acts| + Work(c, Outcome(c, s, acts)) <= Work(c, s)
    decreases |acts|
  {
    if acts != [] {
      StepWorks(c, s, acts[0]);
      StepKeepsInv(c, s, acts[0]);
      WorkBounds(c, Apply(c, s, acts[0]), acts[1..]);
    }
  }

  /** Termination and total correctness: no schedule is longer than a number fixed by the shell's
      configuration, and one that cannot be continued has printed the composition of the
      commands applied to the input. */
  lemma EveryRunEndsWithTheAnswer(c: Config, s: State, acts: seq<Action>)
    requires Reachable(c, s, acts)
    ensures |acts| <= Work(c, Initial(c))
    ensures !CanStep(c, s) ==> Over(s) && s.out == Stream(c, c.n)
  {
    InitialInv(c);
    WorkBounds(c, Initial(c), acts);
    if !CanStep(c, s) {
      if !Over(s) {
        NoDeadlock(c, s, acts);
      }
      PipelineMeaning(c, s, acts);
    }
  }
}
