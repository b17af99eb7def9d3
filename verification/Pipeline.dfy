/** A shell pipeline from the first pipe() to the last exit: the parent creates the pipes, forks
    the stages and closes its ends, while every stage that exists already redirects, closes,
    executes its program and reads and writes. One system call is one step, and any process
    that can step may be next. */
module Pipeline {
  /** What a descriptor refers to: the terminal's two directions, a pipe end, anything else. */
  datatype Desc = Source | Sink | Other(id: nat) | Rd(p: nat) | Wr(p: nat)

  type Table = map<int, Desc>
  type Pipes = seq<(int, int)>

  /** The shell's descriptors, the commands and the kernel's pipe size. A command reads its
      standard input to the end: having read `acc`, it answers the next character c with
      emit(i, acc, c), and the end of its input with last(i, acc). Reading everything before
      writing anything is the case in which emit is empty. */
  datatype Config = Config(
    n: nat, cap: nat, base: Table, shell: int, input: string,
    emit: (nat, string, char) -> string, last: (nat, string) -> string)

  predicate Valid(c: Config) {
    && c.n > 0 && c.cap > 0
    && 0 in c.base && c.base[0] == Source && 1 in c.base && c.base[1] == Sink
    && forall fd :: fd in c.base ==> !c.base[fd].Rd? && !c.base[fd].Wr?
  }

  datatype KidPc =
    | Join | DupIn | DupOut | CloseRd(j: nat) | CloseWr(j: nat) | Exec
    | Run(acc: string, pend: string, eof: bool)
    | Exited(acc: string)
    | Broken

  /** `leader` is the child's copy of the shell's variable pgid; `pgrp` its process group. */
  datatype Kid = Kid(pc: KidPc, table: Table, pid: int, pgrp: int, leader: int, reaped: bool)

  datatype ParentPc =
    | PPipe(i: nat) | PFork(i: nat) | PJoin(i: nat) | PCloseRd(i: nat) | PCloseWr(i: nat) | PAddJob | PDone

  datatype Parent = Parent(pc: ParentPc, table: Table, pipes: Pipes, pgid: int)

  /** `src` is what the terminal has still to offer, `out` what it has been given. */
  datatype State = State(parent: Parent, kids: seq<Kid>, buffers: seq<string>, src: string, out: string)

  function Initial(c: Config): State {
    State(Parent(PPipe(0), c.base, [], 0), [], [], c.input, "")
  }

  /** `ParentStep`'s arguments are the numbers the kernel picks: two descriptors for pipe(), or
      a process id for fork(). `KidStep`'s is how many characters a read or write moves. */
  datatype Action = ParentStep(a: int, b: int) | KidStep(i: nat, k: nat) | Reap(i: nat)

  /* ---- Descriptors ---- */

  function Dup2(t: Table, from: int, to: int): Table {
    if from in t then t[to := t[from]] else t
  }

  predicate NoWriter(parent: Table, kids: seq<Kid>, p: nat) {
    && (forall fd :: fd in parent ==> parent[fd] != Wr(p))
    && (forall k, fd :: 0 <= k < |kids| && fd in kids[k].table ==> kids[k].table[fd] != Wr(p))
  }

  predicate NoReader(parent: Table, kids: seq<Kid>, p: nat) {
    && (forall fd :: fd in parent ==> parent[fd] != Rd(p))
    && (forall k, fd :: 0 <= k < |kids| && fd in kids[k].table ==> kids[k].table[fd] != Rd(p))
  }

  /* ---- Process groups ---- */

  predicate GroupExists(kids: seq<Kid>, g: int) {
    exists k :: 0 <= k < |kids| && !kids[k].reaped && kids[k].pgrp == g
  }

  predicate PidFree(c: Config, kids: seq<Kid>, pid: int) {
    pid > 0 && pid != c.shell &&
    forall k :: 0 <= k < |kids| && !kids[k].reaped ==> kids[k].pid != pid && kids[k].pgrp != pid
  }

  predicate Execed(pc: KidPc) { pc.Run? || pc.Exited? || pc.Broken? }

  /** setpgid(pid of kid i, g): a process may found its own group or enter an existing one. */
  function SetPgid(kids: seq<Kid>, i: nat, g: int): seq<Kid>
    requires i < |kids|
  {
    if g == kids[i].pid || GroupExists(kids, g) then kids[i := kids[i].(pgrp := g)] else kids
  }

  /* ---- The parent: execute_pipeline ---- */

  predicate ParentEnabled(c: Config, s: State, a: int, b: int) {
    match s.parent.pc
    case PPipe(i) => i + 1 < c.n ==> a >= 0 && b >= 0 && a != b && a !in s.parent.table && b !in s.parent.table
    case PFork(i) => i < c.n ==> PidFree(c, s.kids, a)
    case PJoin(i) => i < |s.kids|
    case PCloseRd(i) => i + 1 < c.n ==> i < |s.parent.pipes|
    case PCloseWr(i) => i < |s.parent.pipes|
    case PAddJob => true
    case PDone => false
  }

  function ParentApply(c: Config, s: State, a: int, b: int): State
    requires ParentEnabled(c, s, a, b)
  {
    var p := s.parent;
    match p.pc
    case PPipe(i) =>
      if i + 1 < c.n
      then s.(parent := Parent(PPipe(i + 1), p.table[a := Rd(i)][b := Wr(i)], p.pipes + [(a, b)], p.pgid),
              buffers := s.buffers + [""])
      else s.(parent := p.(pc := PFork(0)))
    case PFork(i) =>
      if i < c.n
      then s.(parent := p.(pc := PJoin(i)), kids := s.kids + [Kid(Join, p.table, a, c.shell, p.pgid, false)])
      else s.(parent := p.(pc := PCloseRd(0)))
    case PJoin(i) =>
      var g := if p.pgid == 0 then s.kids[i].pid else p.pgid;
      s.(parent := p.(pc := PFork(i + 1), pgid := g),
         kids := if Execed(s.kids[i].pc) || s.kids[i].reaped then s.kids else SetPgid(s.kids, i, g))
    case PCloseRd(i) =>
      if i + 1 < c.n then s.(parent := p.(pc := PCloseWr(i), table := p.table - {p.pipes[i].0}))
      else s.(parent := p.(pc := PAddJob))
    case PCloseWr(i) => s.(parent := p.(pc := PCloseRd(i + 1), table := p.table - {p.pipes[i].1}))
    case PAddJob => s.(parent := p.(pc := PDone))
  }

  /* ---- A child ---- */

  /** What a child's step moves between processes. */
  datatype Effect = Nothing | TakeSource(k: nat) | TakePipe(p: nat, k: nat) | PutPipe(p: nat, bytes: string)
    | PutSink(bytes: string)

  predicate ReadEnabled(s: State, d: Desc, k: nat) {
    match d
    case Source => s.src != "" ==> 1 <= k <= |s.src|
    case Rd(p) =>
      p < |s.buffers| &&
      if s.buffers[p] == "" then NoWriter(s.parent.table, s.kids, p) else 1 <= k <= |s.buffers[p]|
    case _ => false
  }

  predicate WriteEnabled(c: Config, s: State, d: Desc, pend: string, k: nat) {
    match d
    case Sink => 1 <= k <= |pend|
    case Wr(p) =>
      p < |s.buffers| &&
      (NoReader(s.parent.table, s.kids, p) || (1 <= k <= |pend| && |s.buffers[p]| + k <= c.cap))
    case _ => false
  }

  predicate KidEnabled(c: Config, s: State, i: nat, k: nat) {
    i < |s.kids| &&
    match s.kids[i].pc
    case Run(acc, pend, eof) =>
      if pend != "" then 1 in s.kids[i].table && WriteEnabled(c, s, s.kids[i].table[1], pend, k)
      else if !eof then 0 in s.kids[i].table && ReadEnabled(s, s.kids[i].table[0], k)
      else true
    case CloseRd(j) => j + 1 < c.n ==> j < |s.parent.pipes|
    case CloseWr(j) => j < |s.parent.pipes|
    case Exited(_) => false
    case Broken => false
    case _ => true
  }

  /** The output a command owes for reading `more` after `acc`. */
  function Emit(c: Config, i: nat, acc: string, more: string): string
    decreases |more|
  {
    if more == "" then ""
    else c.emit(i, acc, more[0]) + Emit(c, i, acc + [more[0]], more[1..])
  }

  function ReadMove(c: Config, s: State, i: nat, kid: Kid, acc: string, k: nat): (Kid, Effect)
    requires 0 in kid.table && ReadEnabled(s, kid.table[0], k)
  {
    match kid.table[0]
    case Source =>
      if s.src == "" then (kid.(pc := Run(acc, c.last(i, acc), true)), Nothing)
      else (kid.(pc := Run(acc + s.src[..k], Emit(c, i, acc, s.src[..k]), false)), TakeSource(k))
    case Rd(p) =>
      if s.buffers[p] == "" then (kid.(pc := Run(acc, c.last(i, acc), true)), Nothing)
      else (kid.(pc := Run(acc + s.buffers[p][..k], Emit(c, i, acc, s.buffers[p][..k]), false)), TakePipe(p, k))
  }

  /** Writing to a pipe that nobody can read any more kills the writer. */
  function WriteMove(c: Config, s: State, kid: Kid, acc: string, pend: string, eof: bool, k: nat): (Kid, Effect)
    requires 1 in kid.table && WriteEnabled(c, s, kid.table[1], pend, k)
  {
    match kid.table[1]
    case Sink => (kid.(pc := Run(acc, pend[k..], eof)), PutSink(pend[..k]))
    case Wr(p) =>
      if NoReader(s.parent.table, s.kids, p) then (kid.(pc := Broken, table := map[]), Nothing)
      else (kid.(pc := Run(acc, pend[k..], eof)), PutPipe(p, pend[..k]))
  }

  /** The joining step is a move of its own, because it looks at the other processes' groups. */
  function KidMove(c: Config, s: State, i: nat, k: nat): (Kid, Effect)
    requires KidEnabled(c, s, i, k)
  {
    var kid, pipes := s.kids[i], s.parent.pipes;
    match kid.pc
    case Join =>
      (SetPgid(s.kids, i, if kid.leader != 0 then kid.leader else kid.pid)[i].(pc := DupIn), Nothing)
    case DupIn =>
      (kid.(pc := DupOut, table := if 0 < i <= |pipes| then Dup2(kid.table, pipes[i - 1].0, 0) else kid.table), Nothing)
    case DupOut =>
      var table := if i + 1 < c.n && i < |pipes| then Dup2(kid.table, pipes[i].1, 1) else kid.table;
      (kid.(pc := CloseRd(0), table := table), Nothing)
    case CloseRd(j) =>
      if j + 1 < c.n then (kid.(pc := CloseWr(j), table := kid.table - {pipes[j].0}), Nothing)
      else (kid.(pc := Exec), Nothing)
    case CloseWr(j) => (kid.(pc := CloseRd(j + 1), table := kid.table - {pipes[j].1}), Nothing)
    case Exec => (kid.(pc := Run("", "", false)), Nothing)
    case Run(acc, pend, eof) =>
      if pend != "" then WriteMove(c, s, kid, acc, pend, eof, k)
      else if !eof then ReadMove(c, s, i, kid, acc, k)
      else (kid.(pc := Exited(acc), table := map[]), Nothing)
  }

  function BuffersAfter(buffers: seq<string>, e: Effect): seq<string> {
    match e
    case TakePipe(p, k) => if p < |buffers| && k <= |buffers[p]| then buffers[p := buffers[p][k..]] else buffers
    case PutPipe(p, bytes) => if p < |buffers| then buffers[p := buffers[p] + bytes] else buffers
    case _ => buffers
  }

  function KidApply(c: Config, s: State, i: nat, k: nat): State
    requires KidEnabled(c, s, i, k)
  {
    var (kid, e) := KidMove(c, s, i, k);
    State(s.parent, s.kids[i := kid], BuffersAfter(s.buffers, e),
          if e.TakeSource? && e.k <= |s.src| then s.src[e.k..] else s.src,
          if e.PutSink? then s.out + e.bytes else s.out)
  }

  /* ---- Runs ---- */

  predicate Enabled(c: Config, s: State, a: Action) {
    match a
    case ParentStep(x, y) => ParentEnabled(c, s, x, y)
    case KidStep(i, k) => KidEnabled(c, s, i, k)
    case Reap(i) => i < |s.kids| && (s.kids[i].pc.Exited? || s.kids[i].pc.Broken?) && !s.kids[i].reaped
  }

  function Apply(c: Config, s: State, a: Action): State
    requires Enabled(c, s, a)
  {
    match a
    case ParentStep(x, y) => ParentApply(c, s, x, y)
    case KidStep(i, k) => KidApply(c, s, i, k)
    case Reap(i) => s.(kids := s.kids[i := s.kids[i].(reaped := true)])
  }

  ghost predicate Schedule(c: Config, s: State, acts: seq<Action>)
    decreases |acts|
  {
    acts == [] || (Enabled(c, s, acts[0]) && Schedule(c, Apply(c, s, acts[0]), acts[1..]))
  }

  ghost function Outcome(c: Config, s: State, acts: seq<Action>): State
    requires Schedule(c, s, acts)
    decreases |acts|
  {
    if acts == [] then s else Outcome(c, Apply(c, s, acts[0]), acts[1..])
  }

  /* ---- What the pipeline should compute ---- */

  /** The meaning of one command. */
  function Filter(c: Config, i: nat, x: string): string {
    Emit(c, i, "", x) + c.last(i, x)
  }

  /** The composition of the first i commands, applied to the shell's input. */
  function Stream(c: Config, i: nat): string {
    if i == 0 then c.input else Filter(c, i - 1, Stream(c, i - 1))
  }
}
