/** The descriptor tables of shell and stages in every interleaving. */
module PipelineWiring {
  import opened Pipeline

  /* ---- Tables as functions of how far a process has got ---- */

  /** The shell's table once it has created `pipes`. */
  function Opened(base: Table, pipes: Pipes): Table {
    if pipes == [] then base
    else
      var k := |pipes| - 1;
      Opened(base, pipes[..k])[pipes[k].0 := Rd(k)][pipes[k].1 := Wr(k)]
  }

  function CloseFirst(t: Table, pipes: Pipes, j: nat): Table
    requires j <= |pipes|
  {
    if j == 0 then t else CloseFirst(t, pipes, j - 1) - {pipes[j - 1].0} - {pipes[j - 1].1}
  }

  function RedirectedIn(t: Table, pipes: Pipes, i: nat): Table {
    if 0 < i <= |pipes| then Dup2(t, pipes[i - 1].0, 0) else t
  }

  function Redirected(t: Table, pipes: Pipes, i: nat): Table {
    if i < |pipes| then Dup2(RedirectedIn(t, pipes, i), pipes[i].1, 1) else RedirectedIn(t, pipes, i)
  }

  /** What stage i must have when its program starts: the shell's own table, with standard input
      from pipe i-1 and standard output to pipe i where there are such pipes, and nothing else. */
  function Wired(c: Config, i: nat): Table { Rewire(c.base, i, c.n) }

  function Rewire(t: Table, i: nat, n: nat): Table {
    var u := if i > 0 then t[0 := Rd(i - 1)] else t;
    if i + 1 < n then u[1 := Wr(i)] else u
  }

  function KidTable(c: Config, pipes: Pipes, i: nat, pc: KidPc): Table {
    var t := Opened(c.base, pipes);
    match pc
    case Join => t
    case DupIn => t
    case DupOut => RedirectedIn(t, pipes, i)
    case CloseRd(j) => if j <= |pipes| then CloseFirst(Redirected(t, pipes, i), pipes, j) else map[]
    case CloseWr(j) => if j < |pipes| then CloseFirst(Redirected(t, pipes, i), pipes, j) - {pipes[j].0} else map[]
    case Exec => CloseFirst(Redirected(t, pipes, i), pipes, |pipes|)
    case Run(_, _, _) => Wired(c, i)
    case _ => map[]
  }

  /** pipe() returned numbers that were not in use. */
  ghost predicate FreshEnds(base: Table, pipes: Pipes) {
    && (forall k :: 0 <= k < |pipes| ==> pipes[k].0 !in base && pipes[k].1 !in base && pipes[k].0 != pipes[k].1)
    && (forall j, k :: 0 <= j < k < |pipes| ==>
          pipes[j].0 != pipes[k].0 && pipes[j].0 != pipes[k].1 && pipes[j].1 != pipes[k].0 && pipes[j].1 != pipes[k].1)
  }

  ghost predicate IsEnd(pipes: Pipes, fd: int) {
    exists k :: 0 <= k < |pipes| && (fd == pipes[k].0 || fd == pipes[k].1)
  }

  lemma EndsOfPrefix(pipes: Pipes, j: nat, fd: int)
    requires j < |pipes|
    ensures IsEnd(pipes[..j + 1], fd) <==> IsEnd(pipes[..j], fd) || fd == pipes[j].0 || fd == pipes[j].1
  {
    var front, all := pipes[..j], pipes[..j + 1];
    if IsEnd(front, fd) {
      var k :| 0 <= k < |front| && (fd == front[k].0 || fd == front[k].1);
      assert all[k] == front[k];
    }
    if fd == pipes[j].0 || fd == pipes[j].1 {
      assert all[j] == pipes[j];
    }
    if IsEnd(all, fd) && fd != pipes[j].0 && fd != pipes[j].1 {
      var k :| 0 <= k < |all| && (fd == all[k].0 || fd == all[k].1);
      assert all[k] == front[k];
    }
  }

  lemma {:induction false} OpenedKeys(base: Table, pipes: Pipes)
    ensures forall fd :: fd in Opened(base, pipes) <==> fd in base || IsEnd(pipes, fd)
  {
    if pipes != [] {
      var m := |pipes| - 1;
      OpenedKeys(base, pipes[..m]);
      forall fd ensures IsEnd(pipes, fd) <==> IsEnd(pipes[..m], fd) || fd == pipes[m].0 || fd == pipes[m].1 {
        EndsOfPrefix(pipes, m, fd);
        assert pipes[..m + 1] == pipes;
      }
    }
  }

  lemma FreshPrefix(base: Table, pipes: Pipes, j: nat)
    requires FreshEnds(base, pipes) && j <= |pipes|
    ensures FreshEnds(base, pipes[..j])
  {}

  lemma {:induction false} OpenedBase(base: Table, pipes: Pipes, fd: int)
    requires FreshEnds(base, pipes) && fd in base
    ensures fd in Opened(base, pipes) && Opened(base, pipes)[fd] == base[fd]
  {
    if pipes != [] {
      var m := |pipes| - 1;
      FreshPrefix(base, pipes, m);
      OpenedBase(base, pipes[..m], fd);
    }
  }

  lemma {:induction false} OpenedEnds(base: Table, pipes: Pipes, k: nat)
    requires FreshEnds(base, pipes) && k < |pipes|
    ensures pipes[k].0 in Opened(base, pipes) && Opened(base, pipes)[pipes[k].0] == Rd(k)
    ensures pipes[k].1 in Opened(base, pipes) && Opened(base, pipes)[pipes[k].1] == Wr(k)
  {
    var m := |pipes| - 1;
    if k < m {
      FreshPrefix(base, pipes, m);
      OpenedEnds(base, pipes[..m], k);
    }
  }

  lemma OpenedAt(base: Table, pipes: Pipes)
    requires FreshEnds(base, pipes)
    ensures forall fd :: fd in Opened(base, pipes) <==> fd in base || IsEnd(pipes, fd)
    ensures forall fd :: fd in base ==> Opened(base, pipes)[fd] == base[fd]
    ensures forall k :: 0 <= k < |pipes| ==>
      && pipes[k].0 in Opened(base, pipes) && Opened(base, pipes)[pipes[k].0] == Rd(k)
      && pipes[k].1 in Opened(base, pipes) && Opened(base, pipes)[pipes[k].1] == Wr(k)
  {
    OpenedKeys(base, pipes);
    forall fd | fd in base ensures Opened(base, pipes)[fd] == base[fd] {
      OpenedBase(base, pipes, fd);
    }
    forall k | 0 <= k < |pipes|
      ensures pipes[k].0 in Opened(base, pipes) && Opened(base, pipes)[pipes[k].0] == Rd(k)
      ensures pipes[k].1 in Opened(base, pipes) && Opened(base, pipes)[pipes[k].1] == Wr(k) {
      OpenedEnds(base, pipes, k);
    }
  }

  lemma {:induction false} CloseFirstAt(t: Table, pipes: Pipes, j: nat)
    requires j <= |pipes|
    ensures forall fd :: fd in CloseFirst(t, pipes, j) <==> fd in t && !IsEnd(pipes[..j], fd)
    ensures forall fd :: fd in CloseFirst(t, pipes, j) ==> CloseFirst(t, pipes, j)[fd] == t[fd]
  {
    if j > 0 {
      CloseFirstAt(t, pipes, j - 1);
      forall fd
        ensures IsEnd(pipes[..j], fd) <==> IsEnd(pipes[..j - 1], fd) || fd == pipes[j - 1].0 || fd == pipes[j - 1].1 {
        EndsOfPrefix(pipes, j - 1, fd);
      }
    }
  }

  lemma EndsAreNotBase(base: Table, pipes: Pipes, fd: int)
    requires FreshEnds(base, pipes) && IsEnd(pipes, fd)
    ensures fd !in base
  {}

  /** Closing every pipe end of `t` leaves `u`, which agrees with it on the shell's numbers. */
  lemma CloseAll(base: Table, pipes: Pipes, t: Table, u: Table)
    requires FreshEnds(base, pipes) && forall fd :: fd in t <==> fd in base || IsEnd(pipes, fd)
    requires u.Keys == base.Keys && forall fd :: fd in base ==> fd in u && u[fd] == t[fd]
    ensures CloseFirst(t, pipes, |pipes|) == u
  {
    CloseFirstAt(t, pipes, |pipes|);
    assert pipes[..|pipes|] == pipes;
    var r := CloseFirst(t, pipes, |pipes|);
    forall fd ensures fd in r <==> fd in u {
      if IsEnd(pipes, fd) {
        EndsAreNotBase(base, pipes, fd);
      }
    }
    assert r.Keys == u.Keys;
    forall fd | fd in r ensures r[fd] == u[fd] {
      assert fd in base;
    }
  }

  /** The two dup2 calls overwrite entries 0 and 1 with the neighbouring pipes' ends. */
  lemma RedirectedEntries(t: Table, pipes: Pipes, i: nat)
    requires i <= |pipes|
    requires i > 0 ==> pipes[i - 1].0 in t && t[pipes[i - 1].0] == Rd(i - 1)
    requires i < |pipes| ==> pipes[i].1 in t && t[pipes[i].1] == Wr(i) && pipes[i].1 != 0
    ensures Redirected(t, pipes, i) == Rewire(t, i, |pipes| + 1)
  {}

  lemma RewireExtends(t: Table, base: Table, i: nat, n: nat)
    requires 0 in base && 1 in base && base.Keys <= t.Keys && forall fd :: fd in base ==> t[fd] == base[fd]
    ensures Rewire(t, i, n).Keys == t.Keys && Rewire(base, i, n).Keys == base.Keys
    ensures forall fd :: fd in base ==> Rewire(t, i, n)[fd] == Rewire(base, i, n)[fd]
  {}

  /** Redirecting and then closing every pipe end leaves exactly the intended table. */
  lemma SetupWires(c: Config, pipes: Pipes, i: nat)
    requires Valid(c) && |pipes| == c.n - 1 && i < c.n && FreshEnds(c.base, pipes)
    ensures CloseFirst(Redirected(Opened(c.base, pipes), pipes, i), pipes, |pipes|) == Wired(c, i)
  {
    var t := Opened(c.base, pipes);
    OpenedAt(c.base, pipes);
    forall fd | fd in c.base.Keys ensures fd in t.Keys {
      assert fd in c.base && fd in t;
    }
    RedirectedEntries(t, pipes, i);
    RewireExtends(t, c.base, i, c.n);
    CloseAll(c.base, pipes, Redirected(t, pipes, i), Wired(c, i));
  }

  /* ---- The invariant ---- */

  ghost predicate ParentWired(c: Config, p: Parent, forked: nat) {
    && FreshEnds(c.base, p.pipes)
    && match p.pc
       case PPipe(i) => i == |p.pipes| < c.n && forked == 0 && p.table == Opened(c.base, p.pipes)
       case PFork(i) => |p.pipes| == c.n - 1 && forked == i <= c.n && p.table == Opened(c.base, p.pipes)
       case PJoin(i) => |p.pipes| == c.n - 1 && forked == i + 1 <= c.n && p.table == Opened(c.base, p.pipes)
       case PCloseRd(i) =>
         |p.pipes| == c.n - 1 && forked == c.n && i < c.n && p.table == CloseFirst(Opened(c.base, p.pipes), p.pipes, i)
       case PCloseWr(i) =>
         |p.pipes| == c.n - 1 && forked == c.n && i + 1 < c.n &&
         p.table == CloseFirst(Opened(c.base, p.pipes), p.pipes, i) - {p.pipes[i].0}
       case _ =>
         |p.pipes| == c.n - 1 && forked == c.n && p.table == CloseFirst(Opened(c.base, p.pipes), p.pipes, c.n - 1)
  }

  ghost predicate KidWired(c: Config, pipes: Pipes, i: nat, kid: Kid) {
    && kid.table == KidTable(c, pipes, i, kid.pc)
    && (kid.pc.CloseRd? ==> kid.pc.j < c.n)
    && (kid.pc.CloseWr? ==> kid.pc.j + 1 < c.n)
  }

  ghost predicate KidsWired(c: Config, pipes: Pipes, kids: seq<Kid>) {
    && |kids| <= c.n && (kids != [] ==> |pipes| == c.n - 1)
    && forall i :: 0 <= i < |kids| ==> KidWired(c, pipes, i, kids[i])
  }

  ghost predicate WiringInv(c: Config, s: State) {
    ParentWired(c, s.parent, |s.kids|) && KidsWired(c, s.parent.pipes, s.kids)
  }

  lemma EndsFresh(base: Table, pipes: Pipes, a: int, b: int)
    requires FreshEnds(base, pipes) && a !in base && b !in base && a != b && !IsEnd(pipes, a) && !IsEnd(pipes, b)
    ensures FreshEnds(base, pipes + [(a, b)])
  {
    forall k | 0 <= k < |pipes| ensures pipes[k].0 != a && pipes[k].0 != b && pipes[k].1 != a && pipes[k].1 != b {}
  }

  lemma OpenedMore(base: Table, pipes: Pipes, a: int, b: int)
    requires FreshEnds(base, pipes) && a !in Opened(base, pipes) && b !in Opened(base, pipes) && a != b
    ensures FreshEnds(base, pipes + [(a, b)])
    ensures Opened(base, pipes + [(a, b)]) == Opened(base, pipes)[a := Rd(|pipes|)][b := Wr(|pipes|)]
  {
    OpenedAt(base, pipes);
    EndsFresh(base, pipes, a, b);
    assert (pipes + [(a, b)])[..|pipes|] == pipes;
  }

  lemma ParentStepWiring(c: Config, s: State, a: int, b: int)
    requires Valid(c) && WiringInv(c, s) && ParentEnabled(c, s, a, b)
    ensures WiringInv(c, ParentApply(c, s, a, b))
  {
    var p := s.parent;
    match p.pc {
      case PPipe(i) =>
        if i + 1 < c.n {
          OpenedMore(c.base, p.pipes, a, b);
        }
      case PJoin(i) => ParentJoinKeepsTables(c, s, a, b);
      case _ =>
    }
  }

  lemma ParentJoinKeepsTables(c: Config, s: State, a: int, b: int)
    requires s.parent.pc.PJoin? && ParentEnabled(c, s, a, b)
    ensures
      var t := ParentApply(c, s, a, b);
      |t.kids| == |s.kids| && forall k :: 0 <= k < |s.kids| ==>
        t.kids[k].pc == s.kids[k].pc && t.kids[k].table == s.kids[k].table && t.kids[k].pid == s.kids[k].pid &&
        t.kids[k].reaped == s.kids[k].reaped && t.kids[k].leader == s.kids[k].leader
  {}

  lemma ClosingMoveWiring(c: Config, s: State, i: nat, k: nat)
    requires Valid(c) && WiringInv(c, s) && KidEnabled(c, s, i, k) && (s.kids[i].pc.CloseRd? || s.kids[i].pc.CloseWr?)
    ensures KidWired(c, s.parent.pipes, i, KidMove(c, s, i, k).0)
  {
    assert KidWired(c, s.parent.pipes, i, s.kids[i]);
  }

  lemma RedirectingMoveWiring(c: Config, s: State, i: nat, k: nat)
    requires Valid(c) && WiringInv(c, s) && KidEnabled(c, s, i, k) && (s.kids[i].pc.DupIn? || s.kids[i].pc.DupOut?)
    ensures KidWired(c, s.parent.pipes, i, KidMove(c, s, i, k).0)
  {
    assert KidWired(c, s.parent.pipes, i, s.kids[i]);
  }

  lemma KidMoveWiring(c: Config, s: State, i: nat, k: nat)
    requires Valid(c) && WiringInv(c, s) && KidEnabled(c, s, i, k)
    ensures KidWired(c, s.parent.pipes, i, KidMove(c, s, i, k).0)
  {
    var pc := s.kids[i].pc;
    if pc.CloseRd? || pc.CloseWr? {
      ClosingMoveWiring(c, s, i, k);
    } else if pc.DupIn? || pc.DupOut? {
      RedirectingMoveWiring(c, s, i, k);
    } else if pc.Exec? {
      SetupWires(c, s.parent.pipes, i);
    }
  }

  lemma StepKeepsWiring(c: Config, s: State, a: Action)
    requires Valid(c) && WiringInv(c, s) && Enabled(c, s, a)
    ensures WiringInv(c, Apply(c, s, a))
  {
    match a {
      case ParentStep(x, y) => ParentStepWiring(c, s, x, y);
      case KidStep(i, k) => KidMoveWiring(c, s, i, k);
      case Reap(i) =>
    }
  }

  /* ---- What it means for the pipes ---- */

  predicate Finished(pc: KidPc) { pc.Exited? || pc.Broken? }

  ghost predicate Holds(t: Table, d: Desc) { exists fd :: fd in t && t[fd] == d }

  /** Closing pipe ends, however many, does not touch the redirected standard streams. */
  lemma ClosingKeepsStreams(c: Config, pipes: Pipes, i: nat, j: nat)
    requires Valid(c) && |pipes| == c.n - 1 && i < c.n && FreshEnds(c.base, pipes) && j <= |pipes|
    ensures
      var t := CloseFirst(Redirected(Opened(c.base, pipes), pipes, i), pipes, j);
      (i > 0 ==> 0 in t && t[0] == Rd(i - 1)) && (i + 1 < c.n ==> 1 in t && t[1] == Wr(i))
  {
    var o := Opened(c.base, pipes);
    OpenedAt(c.base, pipes);
    StdinNoEnd(c, pipes, j);
    RedirectedEntries(o, pipes, i);
    CloseFirstAt(Redirected(o, pipes, i), pipes, j);
  }

  /** A stage keeps its two pipe ends from its creation to its end. */
  lemma StageHoldsItsEnds(c: Config, pipes: Pipes, i: nat, kid: Kid)
    requires Valid(c) && |pipes| == c.n - 1 && i < c.n && FreshEnds(c.base, pipes)
    requires KidWired(c, pipes, i, kid) && !Finished(kid.pc)
    ensures i > 0 ==> Holds(kid.table, Rd(i - 1))
    ensures i + 1 < c.n ==> Holds(kid.table, Wr(i))
  {
    var t, o := kid.table, Opened(c.base, pipes);
    StdinNoEnd(c, pipes, 0);
    if i > 0 {
      OpenedEnds(c.base, pipes, i - 1);
    }
    if i + 1 < c.n {
      OpenedEnds(c.base, pipes, i);
    }
    match kid.pc {
      case Join =>
      case DupIn =>
      case DupOut =>
        assert i > 0 ==> 0 in t && t[0] == Rd(i - 1);
        assert i + 1 < c.n ==> pipes[i].1 in t && t[pipes[i].1] == Wr(i);
      case CloseRd(j) => ClosingKeepsStreams(c, pipes, i, j);
      case CloseWr(j) =>
        ClosingKeepsStreams(c, pipes, i, j);
        assert pipes[j].0 != 0 && pipes[j].0 != 1;
        assert i > 0 ==> 0 in t && t[0] == Rd(i - 1);
        assert i + 1 < c.n ==> 1 in t && t[1] == Wr(i);
      case Exec => ClosingKeepsStreams(c, pipes, i, |pipes|);
      case Run(_, _, _) =>
        if i > 0 {
          assert t[0] == Rd(i - 1);
        }
        if i + 1 < c.n {
          assert t[1] == Wr(i);
        }
    }
  }

  lemma StdinNoEnd(c: Config, pipes: Pipes, j: nat)
    requires Valid(c) && FreshEnds(c.base, pipes) && j <= |pipes|
    ensures !IsEnd(pipes[..j], 0) && !IsEnd(pipes[..j], 1)
    ensures forall k :: 0 <= k < |pipes| ==> pipes[k].0 != 0 && pipes[k].0 != 1 && pipes[k].1 != 0 && pipes[k].1 != 1
  {}

  predicate StillForking(pc: ParentPc) { pc.PPipe? || pc.PFork? || pc.PJoin? }

  /** No end of file too early, no broken pipe too early: an existing pipe has a writer until the
      stage that writes it has finished, and a reader until the stage that reads it has. */
  lemma PipeStaysAlive(c: Config, s: State, p: nat)
    requires Valid(c) && WiringInv(c, s) && p < |s.parent.pipes|
    ensures NoWriter(s.parent.table, s.kids, p) ==> p < |s.kids| && Finished(s.kids[p].pc)
    ensures NoReader(s.parent.table, s.kids, p) ==> p + 1 < |s.kids| && Finished(s.kids[p + 1].pc)
  {
    OpenedAt(c.base, s.parent.pipes);
    if p < |s.kids| && !Finished(s.kids[p].pc) {
      StageHoldsItsEnds(c, s.parent.pipes, p, s.kids[p]);
    }
    if p + 1 < |s.kids| && !Finished(s.kids[p + 1].pc) {
      StageHoldsItsEnds(c, s.parent.pipes, p + 1, s.kids[p + 1]);
    }
    if !StillForking(s.parent.pc) {
      assert |s.kids| == c.n;
    }
  }

  /** Everybody has done what the code tells them about descriptors. */
  ghost predicate SetUp(s: State) {
    (s.parent.pc.PAddJob? || s.parent.pc.PDone?) && forall k :: 0 <= k < |s.kids| ==> Execed(s.kids[k].pc)
  }

  /** The shell's own table, as it was: it keeps no pipe end. */
  lemma ParentRestored(c: Config, s: State)
    requires Valid(c) && WiringInv(c, s) && (s.parent.pc.PAddJob? || s.parent.pc.PDone?)
    ensures s.parent.table == c.base
  {
    var pipes := s.parent.pipes;
    assert |pipes| == c.n - 1 && s.parent.table == CloseFirst(Opened(c.base, pipes), pipes, |pipes|);
    OpenedThenClosed(c.base, pipes);
  }

  lemma OpenedThenClosed(base: Table, pipes: Pipes)
    requires FreshEnds(base, pipes)
    ensures CloseFirst(Opened(base, pipes), pipes, |pipes|) == base
  {
    OpenedAt(base, pipes);
    CloseAll(base, pipes, Opened(base, pipes), base);
  }

  /** Once set-up is over the only writer of pipe p is stage p, and its only reader stage p+1. */
  lemma SoleHolders(c: Config, s: State, p: nat)
    requires Valid(c) && WiringInv(c, s) && SetUp(s) && p + 1 < c.n
    ensures forall k, fd :: 0 <= k < |s.kids| && fd in s.kids[k].table && s.kids[k].table[fd] == Wr(p) ==>
      k == p && fd == 1
    ensures forall k, fd :: 0 <= k < |s.kids| && fd in s.kids[k].table && s.kids[k].table[fd] == Rd(p) ==>
      k == p + 1 && fd == 0
    ensures |s.kids| == c.n
    ensures NoWriter(s.parent.table, s.kids, p) <==> Finished(s.kids[p].pc)
    ensures NoReader(s.parent.table, s.kids, p) <==> Finished(s.kids[p + 1].pc)
  {
    ParentRestored(c, s);
    PipeStaysAlive(c, s, p);
    forall k, fd | 0 <= k < |s.kids| && fd in s.kids[k].table
      ensures s.kids[k].table[fd] == Wr(p) ==> k == p && fd == 1
      ensures s.kids[k].table[fd] == Rd(p) ==> k == p + 1 && fd == 0 {
      assert KidWired(c, s.parent.pipes, k, s.kids[k]);
    }
  }
}
