/** What flows through a running pipeline: no interleaving loses, invents or reorders a byte. */
module PipelineData {
  import opened Pipeline
  import opened PipelineWiring

  /* ---- The commands as stream functions ---- */

  lemma {:induction false} EmitSplit(c: Config, i: nat, acc: string, a: string, b: string)
    ensures Emit(c, i, acc, a + b) == Emit(c, i, acc, a) + Emit(c, i, acc + a, b)
    decreases |a|
  {
    if a == "" {
      assert a + b == b && acc + a == acc;
    } else {
      EmitSplit(c, i, acc + [a[0]], a[1..], b);
      assert (a + b)[1..] == a[1..] + b;
      assert acc + [a[0]] + a[1..] == acc + a;
    }
  }

  /** What a command says while it reads the first k characters of x, character by character. */
  function Said(c: Config, i: nat, x: string, k: nat): string
    requires k <= |x|
  {
    if k == 0 then "" else Said(c, i, x, k - 1) + c.emit(i, x[..k - 1], x[k - 1])
  }

  lemma {:induction false} EmitIsSaid(c: Config, i: nat, x: string, k: nat)
    requires k <= |x|
    ensures Emit(c, i, "", x[..k]) == Said(c, i, x, k)
  {
    if k > 0 {
      EmitIsSaid(c, i, x, k - 1);
      assert x[..k] == x[..k - 1] + [x[k - 1]] && "" + x[..k - 1] == x[..k - 1];
      EmitSplit(c, i, "", x[..k - 1], [x[k - 1]]);
      assert [x[k - 1]][1..] == "";
      assert Emit(c, i, x[..k - 1] + [x[k - 1]], "") == "";
    }
  }

  /** The meaning of a command: its answers to the characters it reads, each given after what
      came before, and then its answer to the end of its input. */
  lemma FilterMeaning(c: Config, i: nat, x: string)
    ensures Filter(c, i, x) == Said(c, i, x, |x|) + c.last(i, x)
  {
    EmitIsSaid(c, i, x, |x|);
    assert x[..|x|] == x;
  }

  /** Commands that read everything and then write: the pipeline is the plain composition. */
  lemma {:induction false} PlainComposition(c: Config, i: nat)
    requires forall j: nat, acc, ch :: c.emit(j, acc, ch) == ""
    ensures Stream(c, i + 1) == c.last(i, Stream(c, i)) && Stream(c, 0) == c.input
  {
    FilterMeaning(c, i, Stream(c, i));
    SaysNothing(c, i, Stream(c, i), |Stream(c, i)|);
  }

  lemma {:induction false} SaysNothing(c: Config, i: nat, x: string, k: nat)
    requires k <= |x| && forall j: nat, acc, ch :: c.emit(j, acc, ch) == ""
    ensures Said(c, i, x, k) == ""
  {
    if k > 0 {
      SaysNothing(c, i, x, k - 1);
    }
  }

  /** What a command owes after reading `acc`, its end of file included or not. */
  function Owed(c: Config, i: nat, acc: string, eof: bool): string {
    Emit(c, i, "", acc) + if eof then c.last(i, acc) else ""
  }

  lemma OwedMore(c: Config, i: nat, acc: string, more: string)
    ensures Owed(c, i, acc + more, false) == Owed(c, i, acc, false) + Emit(c, i, acc, more)
  {
    EmitSplit(c, i, "", acc, more);
    assert "" + acc == acc;
  }

  /** A command that has read a prefix of `x` owes a prefix of what it owes for all of `x`. */
  lemma OwedPrefix(c: Config, i: nat, acc: string, x: string)
    requires acc <= x
    ensures Owed(c, i, acc, false) <= Filter(c, i, x)
  {
    EmitSplit(c, i, "", acc, x[|acc|..]);
    assert x == acc + x[|acc|..] && "" + acc == acc;
  }

  /* ---- The invariant ---- */

  /** What stage i has read so far. */
  function Consumed(kids: seq<Kid>, i: nat): string {
    if i < |kids| && (kids[i].pc.Run? || kids[i].pc.Exited?) then kids[i].pc.acc else ""
  }

  /** What stage i has written so far: what the next stage has read, and what is in the pipe. */
  function Produced(kids: seq<Kid>, buffers: seq<string>, out: string, n: nat, i: nat): string {
    if i + 1 < n then Consumed(kids, i + 1) + (if i < |buffers| then buffers[i] else "") else out
  }

  /** Stage i has written what it owes, except for what it still has pending. */
  ghost predicate Flow(c: Config, kid: Kid, i: nat, produced: string) {
    match kid.pc
    case Run(acc, pend, eof) => produced + pend == Owed(c, i, acc, eof)
    case Exited(acc) => produced == Owed(c, i, acc, true)
    case Broken => false
    case _ => produced == ""
  }

  predicate AtEof(pc: KidPc) { pc.Exited? || (pc.Run? && pc.eof) }

  ghost predicate FlowAt(c: Config, kids: seq<Kid>, buffers: seq<string>, out: string, i: int) {
    0 <= i < |kids| ==> Flow(c, kids[i], i, Produced(kids, buffers, out, c.n, i))
  }

  /** An end of file is only ever seen when everything upstream is over and drained. */
  ghost predicate EofAt(kids: seq<Kid>, buffers: seq<string>, src: string, i: int) {
    0 <= i < |kids| && AtEof(kids[i].pc) ==>
      if i == 0 then src == "" else kids[i - 1].pc.Exited? && i - 1 < |buffers| && buffers[i - 1] == ""
  }

  ghost predicate IdleAt(kids: seq<Kid>, buffers: seq<string>, out: string, n: nat, i: int) {
    |kids| <= i < n ==> Produced(kids, buffers, out, n, i) == ""
  }

  ghost predicate Data(c: Config, kids: seq<Kid>, buffers: seq<string>, src: string, out: string) {
    && Consumed(kids, 0) + src == c.input
    && (forall p :: 0 <= p < |buffers| ==> |buffers[p]| <= c.cap)
    && (forall i {:trigger FlowAt(c, kids, buffers, out, i)} :: FlowAt(c, kids, buffers, out, i))
    && (forall i {:trigger IdleAt(kids, buffers, out, c.n, i)} :: IdleAt(kids, buffers, out, c.n, i))
    && (forall i {:trigger EofAt(kids, buffers, src, i)} :: EofAt(kids, buffers, src, i))
  }

  ghost predicate DataInv(c: Config, s: State) {
    |s.buffers| == |s.parent.pipes| && Data(c, s.kids, s.buffers, s.src, s.out)
  }

  predicate SameInput(buffers: seq<string>, buffers': seq<string>, src: string, src': string, j: int) {
    if j == 0 then src' == src
    else 0 <= j - 1 < |buffers| && j - 1 < |buffers'| ==> buffers'[j - 1] == buffers[j - 1]
  }

  /** Stage i moves on; nobody else's view of the data changes. */
  lemma OthersKeepData(c: Config, kids: seq<Kid>, i: nat, kid: Kid, buffers: seq<string>, buffers': seq<string>,
                       src: string, src': string, out: string, out': string)
    requires Data(c, kids, buffers, src, out) && i < |kids| <= c.n && |buffers'| == |buffers|
    requires Consumed(kids[i := kid], 0) + src' == c.input
    requires forall p :: 0 <= p < |buffers| ==> |buffers'[p]| <= c.cap
    requires forall j: nat :: j != i && j < c.n ==>
      Produced(kids[i := kid], buffers', out', c.n, j) == Produced(kids, buffers, out, c.n, j)
    requires FlowAt(c, kids[i := kid], buffers', out', i)
    requires EofAt(kids[i := kid], buffers', src', i)
    requires kids[i].pc.Exited? ==> kid.pc.Exited?
    requires forall j {:trigger SameInput(buffers, buffers', src, src', j)} ::
      0 <= j < |kids| && j != i && AtEof(kids[j].pc) ==> SameInput(buffers, buffers', src, src', j)
    ensures Data(c, kids[i := kid], buffers', src', out')
  {
    var kids' := kids[i := kid];
    forall j ensures FlowAt(c, kids', buffers', out', j) {
      assert FlowAt(c, kids, buffers, out, j);
    }
    forall j ensures IdleAt(kids', buffers', out', c.n, j) {
      assert IdleAt(kids, buffers, out, c.n, j);
    }
    forall j ensures EofAt(kids', buffers', src', j) {
      assert EofAt(kids, buffers, src, j) &&
        (j != i && 0 <= j < |kids| && AtEof(kids[j].pc) ==> SameInput(buffers, buffers', src, src', j));
    }
  }

  /* ---- What others see of stage i's step ---- */

  lemma QuietProduced(kids: seq<Kid>, i: nat, kid: Kid, buffers: seq<string>, out: string, n: nat, j: nat)
    requires i < |kids| && (j + 1 == i ==> Consumed([kid], 0) == Consumed(kids, i))
    ensures Produced(kids[i := kid], buffers, out, n, j) == Produced(kids, buffers, out, n, j)
  {}

  lemma Rejoined(front: string, s: string, k: nat)
    requires k <= |s|
    ensures (front + s[..k]) + s[k..] == front + s
  {}

  lemma TakenProduced(kids: seq<Kid>, i: nat, kid: Kid, buffers: seq<string>, k: nat, out: string, n: nat, j: nat)
    requires 0 < i < |kids| && i - 1 < |buffers| && k <= |buffers[i - 1]|
    requires Consumed([kid], 0) == Consumed(kids, i) + buffers[i - 1][..k]
    ensures Produced(kids[i := kid], buffers[i - 1 := buffers[i - 1][k..]], out, n, j) ==
      Produced(kids, buffers, out, n, j)
  {
    if j + 1 == i {
      Rejoined(Consumed(kids, i), buffers[i - 1], k);
    }
  }

  lemma WrittenProduced(kids: seq<Kid>, i: nat, kid: Kid, buffers: seq<string>, bytes: string, out: string, n: nat,
      j: nat)
    requires i < |kids| && Consumed([kid], 0) == Consumed(kids, i) && j != i && j < n
    ensures i < |buffers| ==>
      Produced(kids[i := kid], buffers[i := buffers[i] + bytes], out, n, j) == Produced(kids, buffers, out, n, j)
    ensures i + 1 == n ==> Produced(kids[i := kid], buffers, out + bytes, n, j) == Produced(kids, buffers, out, n, j)
  {}

  /** Stage i changes nothing that others see: neither what it has read nor its end of file. */
  lemma QuietKeepsData(c: Config, kids: seq<Kid>, i: nat, kid: Kid, buffers: seq<string>, src: string, out: string)
    requires Data(c, kids, buffers, src, out) && i < |kids| <= c.n
    requires Consumed([kid], 0) == Consumed(kids, i)
    requires AtEof(kid.pc) ==> EofAt(kids[i := kid], buffers, src, i)
    requires kids[i].pc.Exited? ==> kid.pc.Exited?
    requires Flow(c, kid, i, Produced(kids, buffers, out, c.n, i))
    ensures Data(c, kids[i := kid], buffers, src, out)
  {
    var kids' := kids[i := kid];
    forall j: nat ensures Consumed(kids', j) == Consumed(kids, j) {}
    forall j: nat ensures Produced(kids', buffers, out, c.n, j) == Produced(kids, buffers, out, c.n, j) {}
    OthersKeepData(c, kids, i, kid, buffers, buffers, src, src, out, out);
  }

  /** What a stage owes after a read is what it owed and what it now holds back. */
  lemma ReadFlow(c: Config, kid: Kid, kid': Kid, i: nat, more: string, produced: string)
    requires kid.pc.Run? && kid.pc.pend == "" && !kid.pc.eof && Flow(c, kid, i, produced)
    requires kid'.pc == Run(kid.pc.acc + more, Emit(c, i, kid.pc.acc, more), false)
    ensures Flow(c, kid', i, produced)
  {
    OwedMore(c, i, kid.pc.acc, more);
    assert produced + "" == produced;
  }

  lemma SourceReadKeepsData(c: Config, kids: seq<Kid>, kid: Kid, k: nat, buffers: seq<string>, src: string, out: string)
    requires Data(c, kids, buffers, src, out) && 0 < |kids| <= c.n && k <= |src|
    requires kids[0].pc.Run? && kids[0].pc.pend == "" && !kids[0].pc.eof
    requires kid.pc == Run(kids[0].pc.acc + src[..k], Emit(c, 0, kids[0].pc.acc, src[..k]), false)
    ensures Data(c, kids[0 := kid], buffers, src[k..], out)
  {
    assert FlowAt(c, kids, buffers, out, 0);
    ReadFlow(c, kids[0], kid, 0, src[..k], Produced(kids, buffers, out, c.n, 0));
    Rejoined(kids[0].pc.acc, src, k);
    forall j: nat ensures Produced(kids[0 := kid], buffers, out, c.n, j) == Produced(kids, buffers, out, c.n, j) {
      QuietProduced(kids, 0, kid, buffers, out, c.n, j);
    }
    OthersKeepData(c, kids, 0, kid, buffers, buffers, src, src[k..], out, out);
  }

  /** A read from pipe i-1 moves characters from the pipe to stage i and keeps their order. */
  lemma PipeReadKeepsData(c: Config, kids: seq<Kid>, i: nat, kid: Kid, k: nat, buffers: seq<string>, src: string,
      out: string)
    requires Data(c, kids, buffers, src, out) && 0 < i < |kids| <= c.n && i - 1 < |buffers| && k <= |buffers[i - 1]|
    requires kids[i].pc.Run? && kids[i].pc.pend == "" && !kids[i].pc.eof
    requires
      var chunk := buffers[i - 1][..k];
      kid.pc == Run(kids[i].pc.acc + chunk, Emit(c, i, kids[i].pc.acc, chunk), false)
    ensures Data(c, kids[i := kid], buffers[i - 1 := buffers[i - 1][k..]], src, out)
  {
    var b := buffers[i - 1];
    var kids', buffers' := kids[i := kid], buffers[i - 1 := b[k..]];
    assert FlowAt(c, kids, buffers, out, i);
    ReadFlow(c, kids[i], kid, i, b[..k], Produced(kids, buffers, out, c.n, i));
    assert Consumed(kids', 0) == Consumed(kids, 0);
    forall j: nat ensures Produced(kids', buffers', out, c.n, j) == Produced(kids, buffers, out, c.n, j) {
      TakenProduced(kids, i, kid, buffers, k, out, c.n, j);
    }
    OthersKeepData(c, kids, i, kid, buffers, buffers', src, src, out, out);
  }

  /** A write moves characters from stage i's pending output to pipe i. */
  lemma PipeWriteKeepsData(c: Config, kids: seq<Kid>, i: nat, kid: Kid, k: nat, buffers: seq<string>, src: string,
      out: string)
    requires Data(c, kids, buffers, src, out) && i < |kids| && i + 1 < c.n
    requires kids[i].pc.Run? && k <= |kids[i].pc.pend| && |kids| <= c.n
    requires kid.pc == Run(kids[i].pc.acc, kids[i].pc.pend[k..], kids[i].pc.eof)
    requires i < |buffers| && |buffers[i]| + k <= c.cap
    ensures Data(c, kids[i := kid], buffers[i := buffers[i] + kids[i].pc.pend[..k]], src, out)
  {
    var pend := kids[i].pc.pend;
    var buffers' := buffers[i := buffers[i] + pend[..k]];
    assert FlowAt(c, kids, buffers, out, i) && EofAt(kids, buffers, src, i);
    WriteFlow(c, kids, i, kid, k, buffers, src, out);
    OthersSeeTheSame(kids, i, kid, buffers, pend[..k], out, c.n);
    NotYetSeen(c, kids, i, buffers, src, out);
    OthersKeepData(c, kids, i, kid, buffers, buffers', src, src, out, out);
  }

  lemma OthersSeeTheSame(kids: seq<Kid>, i: nat, kid: Kid, buffers: seq<string>, bytes: string, out: string, n: nat)
    requires i < |kids| && i < |buffers| && Consumed([kid], 0) == Consumed(kids, i)
    ensures forall j: nat :: j != i && j < n ==>
      Produced(kids[i := kid], buffers[i := buffers[i] + bytes], out, n, j) == Produced(kids, buffers, out, n, j)
  {
    forall j: nat | j != i && j < n ensures
      Produced(kids[i := kid], buffers[i := buffers[i] + bytes], out, n, j) == Produced(kids, buffers, out, n, j)
    {
      WrittenProduced(kids, i, kid, buffers, bytes, out, n, j);
    }
  }

  lemma WriteFlow(c: Config, kids: seq<Kid>, i: nat, kid: Kid, k: nat, buffers: seq<string>, src: string, out: string)
    requires i < |kids| && i + 1 < c.n && i < |buffers|
    requires FlowAt(c, kids, buffers, out, i) && EofAt(kids, buffers, src, i)
    requires kids[i].pc.Run? && k <= |kids[i].pc.pend|
    requires kid.pc == Run(kids[i].pc.acc, kids[i].pc.pend[k..], kids[i].pc.eof)
    ensures
      var kids', buffers' := kids[i := kid], buffers[i := buffers[i] + kids[i].pc.pend[..k]];
      FlowAt(c, kids', buffers', out, i) && EofAt(kids', buffers', src, i) && Consumed(kids', 0) == Consumed(kids, 0)
  {
    var pend, read := kids[i].pc.pend, Consumed(kids, i + 1);
    assert read + (buffers[i] + pend[..k]) == (read + buffers[i]) + pend[..k];
    assert Produced(kids[i := kid], buffers[i := buffers[i] + pend[..k]], out, c.n, i)
        == Produced(kids, buffers, out, c.n, i) + pend[..k];
    Rejoined(Produced(kids, buffers, out, c.n, i), pend, k);
  }

  /** While stage i runs, the stage behind it has not seen the end of its input. */
  lemma NotYetSeen(c: Config, kids: seq<Kid>, i: nat, buffers: seq<string>, src: string, out: string)
    requires Data(c, kids, buffers, src, out) && i < |kids| && kids[i].pc.Run?
    ensures i + 1 < |kids| ==> !AtEof(kids[i + 1].pc)
  {
    assert EofAt(kids, buffers, src, i + 1);
  }

  /** The last stage writes to the terminal. */
  lemma SinkWriteKeepsData(c: Config, kids: seq<Kid>, i: nat, kid: Kid, k: nat, buffers: seq<string>, src: string,
      out: string)
    requires Data(c, kids, buffers, src, out) && i < |kids| && i + 1 == c.n
    requires kids[i].pc.Run? && k <= |kids[i].pc.pend| && |kids| <= c.n
    requires kid.pc == Run(kids[i].pc.acc, kids[i].pc.pend[k..], kids[i].pc.eof)
    ensures Data(c, kids[i := kid], buffers, src, out + kids[i].pc.pend[..k])
  {
    var kids', pend := kids[i := kid], kids[i].pc.pend;
    Rejoined(out, pend, k);
    assert FlowAt(c, kids, buffers, out, i) && EofAt(kids, buffers, src, i);
    forall j: nat ensures Consumed(kids', j) == Consumed(kids, j) {}
    OthersKeepData(c, kids, i, kid, buffers, buffers, src, src, out, out + pend[..k]);
  }

  lemma ForkKeepsData(c: Config, kids: seq<Kid>, kid: Kid, buffers: seq<string>, src: string, out: string)
    requires Data(c, kids, buffers, src, out) && |kids| < c.n && kid.pc.Join?
    ensures Data(c, kids + [kid], buffers, src, out)
  {
    var kids' := kids + [kid];
    forall j: nat ensures Consumed(kids', j) == Consumed(kids, j) {}
    forall j: nat ensures Produced(kids', buffers, out, c.n, j) == Produced(kids, buffers, out, c.n, j) {}
    forall j ensures FlowAt(c, kids', buffers, out, j) && IdleAt(kids', buffers, out, c.n, j) &&
        EofAt(kids', buffers, src, j) {
      assert FlowAt(c, kids, buffers, out, j) && IdleAt(kids, buffers, out, c.n, j) && EofAt(kids, buffers, src, j);
    }
  }

  lemma PipeKeepsData(c: Config, buffers: seq<string>, src: string, out: string)
    requires Data(c, [], buffers, src, out)
    ensures Data(c, [], buffers + [""], src, out)
  {
    forall j ensures IdleAt([], buffers + [""], out, c.n, j) {
      assert IdleAt([], buffers, out, c.n, j);
    }
  }

  /** Only process groups change. */
  lemma GroupsKeepData(c: Config, kids: seq<Kid>, kids': seq<Kid>, buffers: seq<string>, src: string, out: string)
    requires Data(c, kids, buffers, src, out) && |kids'| == |kids|
    requires forall j :: 0 <= j < |kids| ==> kids'[j].pc == kids[j].pc
    ensures Data(c, kids', buffers, src, out)
  {
    forall j: nat ensures Consumed(kids', j) == Consumed(kids, j) {}
    forall j: nat ensures Produced(kids', buffers, out, c.n, j) == Produced(kids, buffers, out, c.n, j) {}
    forall j ensures FlowAt(c, kids', buffers, out, j) && IdleAt(kids', buffers, out, c.n, j) &&
        EofAt(kids', buffers, src, j) {
      assert FlowAt(c, kids, buffers, out, j) && IdleAt(kids, buffers, out, c.n, j) && EofAt(kids, buffers, src, j);
    }
  }

  /* ---- Every step ---- */

  ghost predicate Inv(c: Config, s: State) { WiringInv(c, s) && DataInv(c, s) }

  /** A running stage reads from its left neighbour and writes to its right one. */
  lemma Streams(c: Config, s: State, i: nat)
    requires Valid(c) && WiringInv(c, s) && i < |s.kids| && s.kids[i].pc.Run?
    ensures 0 in s.kids[i].table && s.kids[i].table[0] == if i == 0 then Source else Rd(i - 1)
    ensures 1 in s.kids[i].table && s.kids[i].table[1] == if i + 1 < c.n then Wr(i) else Sink
  {
    assert KidWired(c, s.parent.pipes, i, s.kids[i]);
  }

  /** Nobody is ever killed for writing to a pipe without readers. */
  lemma NeverBroken(c: Config, s: State, i: nat)
    requires Valid(c) && Inv(c, s) && i < |s.kids| && s.kids[i].pc.Run? && i + 1 < c.n
    ensures !NoReader(s.parent.table, s.kids, i)
  {
    PipeStaysAlive(c, s, i);
    if i + 1 < |s.kids| && Finished(s.kids[i + 1].pc) {
      assert FlowAt(c, s.kids, s.buffers, s.out, i + 1) && EofAt(s.kids, s.buffers, s.src, i + 1);
    }
  }

  lemma WriteStepKeepsData(c: Config, s: State, i: nat, k: nat)
    requires Valid(c) && Inv(c, s) && KidEnabled(c, s, i, k) && s.kids[i].pc.Run? && s.kids[i].pc.pend != ""
    ensures DataInv(c, KidApply(c, s, i, k))
  {
    var t := KidApply(c, s, i, k);
    Streams(c, s, i);
    if i + 1 < c.n {
      NeverBroken(c, s, i);
      PipeWriteKeepsData(c, s.kids, i, t.kids[i], k, s.buffers, s.src, s.out);
    } else {
      SinkWriteKeepsData(c, s.kids, i, t.kids[i], k, s.buffers, s.src, s.out);
    }
  }

  /** At the end of its input a stage owes what it still has to say, and holds that back. */
  lemma EofFlow(c: Config, kid: Kid, kid': Kid, i: nat, produced: string)
    requires kid.pc.Run? && kid.pc.pend == "" && !kid.pc.eof && Flow(c, kid, i, produced)
    requires kid'.pc == Run(kid.pc.acc, c.last(i, kid.pc.acc), true)
    ensures Flow(c, kid', i, produced)
  {
    assert produced + "" == produced && Owed(c, i, kid.pc.acc, false) == Emit(c, i, "", kid.pc.acc);
  }

  /** Whoever has ended has left behind all it owed: its input was at an end before. */
  lemma UpstreamIsOver(c: Config, s: State, i: nat)
    requires Valid(c) && Inv(c, s) && 0 < i < |s.kids|
    requires i - 1 < |s.buffers| && NoWriter(s.parent.table, s.kids, i - 1)
    ensures s.kids[i - 1].pc.Exited?
  {
    PipeStaysAlive(c, s, i - 1);
    assert FlowAt(c, s.kids, s.buffers, s.out, i - 1);
  }

  /** Stage i's read finds its input at an end: so it is, all the way up. */
  lemma EofStepKeepsData(c: Config, s: State, i: nat, kid: Kid)
    requires Valid(c) && Inv(c, s) && i < |s.kids| && s.kids[i].pc.Run? && s.kids[i].pc.pend == "" && !s.kids[i].pc.eof
    requires kid.pc == Run(s.kids[i].pc.acc, c.last(i, s.kids[i].pc.acc), true)
    requires i == 0 ==> s.src == ""
    requires i > 0 ==> i - 1 < |s.buffers| && s.buffers[i - 1] == "" && NoWriter(s.parent.table, s.kids, i - 1)
    ensures Data(c, s.kids[i := kid], s.buffers, s.src, s.out)
  {
    assert FlowAt(c, s.kids, s.buffers, s.out, i);
    EofFlow(c, s.kids[i], kid, i, Produced(s.kids, s.buffers, s.out, c.n, i));
    if i > 0 {
      UpstreamIsOver(c, s, i);
    }
    QuietKeepsData(c, s.kids, i, kid, s.buffers, s.src, s.out);
  }

  lemma EofOutcome(c: Config, s: State, i: nat, k: nat)
    requires KidEnabled(c, s, i, k) && s.kids[i].pc.Run? && s.kids[i].pc.pend == "" && !s.kids[i].pc.eof
    requires 0 in s.kids[i].table && s.kids[i].table[0] == if i == 0 then Source else Rd(i - 1)
    requires if i == 0 then s.src == "" else i - 1 < |s.buffers| && s.buffers[i - 1] == ""
    ensures
      var t := KidApply(c, s, i, k);
      && t.kids == s.kids[i := t.kids[i]] && t.parent == s.parent
      && t.buffers == s.buffers && t.src == s.src && t.out == s.out
      && t.kids[i].pc == Run(s.kids[i].pc.acc, c.last(i, s.kids[i].pc.acc), true)
  {}

  lemma SourceReadOutcome(c: Config, s: State, k: nat)
    requires KidEnabled(c, s, 0, k) && s.kids[0].pc.Run? && s.kids[0].pc.pend == "" && !s.kids[0].pc.eof
    requires 0 in s.kids[0].table && s.kids[0].table[0] == Source && s.src != ""
    ensures
      var t, p := KidApply(c, s, 0, k), s.kids[0].pc;
      && 1 <= k <= |s.src| && t.kids == s.kids[0 := t.kids[0]] && t.parent == s.parent
      && t.buffers == s.buffers && t.src == s.src[k..] && t.out == s.out
      && t.kids[0].pc == Run(p.acc + s.src[..k], Emit(c, 0, p.acc, s.src[..k]), false)
  {}

  lemma PipeReadOutcome(c: Config, s: State, i: nat, k: nat)
    requires i > 0 && KidEnabled(c, s, i, k) && s.kids[i].pc.Run? && s.kids[i].pc.pend == "" && !s.kids[i].pc.eof
    requires 0 in s.kids[i].table && s.kids[i].table[0] == Rd(i - 1) && i - 1 < |s.buffers| && s.buffers[i - 1] != ""
    ensures
      var t, p, b := KidApply(c, s, i, k), s.kids[i].pc, s.buffers[i - 1];
      && 1 <= k <= |b| && t.kids == s.kids[i := t.kids[i]] && t.parent == s.parent
      && t.buffers == s.buffers[i - 1 := b[k..]] && t.src == s.src && t.out == s.out
      && t.kids[i].pc == Run(p.acc + b[..k], Emit(c, i, p.acc, b[..k]), false)
  {}

  lemma ReadStepKeepsData(c: Config, s: State, i: nat, k: nat)
    requires Valid(c) && Inv(c, s) && KidEnabled(c, s, i, k)
    requires s.kids[i].pc.Run? && s.kids[i].pc.pend == "" && !s.kids[i].pc.eof
    ensures DataInv(c, KidApply(c, s, i, k))
  {
    var kid := KidApply(c, s, i, k).kids[i];
    Streams(c, s, i);
    if if i == 0 then s.src == "" else s.buffers[i - 1] == "" {
      EofOutcome(c, s, i, k);
      EofStepKeepsData(c, s, i, kid);
    } else if i == 0 {
      SourceReadOutcome(c, s, k);
      SourceReadKeepsData(c, s.kids, kid, k, s.buffers, s.src, s.out);
    } else {
      PipeReadOutcome(c, s, i, k);
      PipeReadKeepsData(c, s.kids, i, kid, k, s.buffers, s.src, s.out);
    }
  }

  lemma SetupMoves(c: Config, s: State, i: nat, k: nat)
    requires KidEnabled(c, s, i, k) && !s.kids[i].pc.Run?
    ensures
      var (kid, e) := KidMove(c, s, i, k);
      && e == Nothing && !kid.pc.Exited? && !kid.pc.Broken? && (kid.pc.Run? ==> kid.pc == Run("", "", false))
  {}

  lemma ExitMoves(c: Config, s: State, i: nat, k: nat)
    requires KidEnabled(c, s, i, k) && s.kids[i].pc.Run? && s.kids[i].pc.pend == "" && s.kids[i].pc.eof
    ensures
      var (kid, e) := KidMove(c, s, i, k);
      e == Nothing && kid.pc == Exited(s.kids[i].pc.acc)
  {}

  lemma SetupFlow(c: Config, kid: Kid, kid': Kid, i: nat, produced: string)
    requires Flow(c, kid, i, produced) && !kid.pc.Run? && !kid.pc.Exited?
    requires !kid'.pc.Exited? && !kid'.pc.Broken? && (kid'.pc.Run? ==> kid'.pc == Run("", "", false))
    ensures Flow(c, kid', i, produced)
  {}

  lemma ExitFlow(c: Config, kid: Kid, kid': Kid, i: nat, produced: string)
    requires Flow(c, kid, i, produced) && kid.pc.Run? && kid.pc.pend == "" && kid.pc.eof &&
      kid'.pc == Exited(kid.pc.acc)
    ensures Flow(c, kid', i, produced)
  {
    assert produced + "" == produced;
  }

  /** A step of the set-up, and a stage's exit, move no data. */
  lemma QuietStepKeepsData(c: Config, s: State, i: nat, k: nat)
    requires Valid(c) && Inv(c, s) && KidEnabled(c, s, i, k)
    requires s.kids[i].pc.Run? ==> s.kids[i].pc.pend == "" && s.kids[i].pc.eof
    ensures DataInv(c, KidApply(c, s, i, k))
  {
    assert FlowAt(c, s.kids, s.buffers, s.out, i) && EofAt(s.kids, s.buffers, s.src, i);
    var kid, produced := KidMove(c, s, i, k).0, Produced(s.kids, s.buffers, s.out, c.n, i);
    if s.kids[i].pc.Run? {
      ExitMoves(c, s, i, k);
      ExitFlow(c, s.kids[i], kid, i, produced);
    } else {
      SetupMoves(c, s, i, k);
      SetupFlow(c, s.kids[i], kid, i, produced);
    }
    QuietKeepsData(c, s.kids, i, kid, s.buffers, s.src, s.out);
  }

  lemma KidStepKeepsData(c: Config, s: State, i: nat, k: nat)
    requires Valid(c) && Inv(c, s) && KidEnabled(c, s, i, k)
    ensures DataInv(c, KidApply(c, s, i, k))
  {
    if s.kids[i].pc.Run? && s.kids[i].pc.pend != "" {
      WriteStepKeepsData(c, s, i, k);
    } else if s.kids[i].pc.Run? && !s.kids[i].pc.eof {
      ReadStepKeepsData(c, s, i, k);
    } else {
      QuietStepKeepsData(c, s, i, k);
    }
  }

  lemma ParentStepKeepsData(c: Config, s: State, a: int, b: int)
    requires Valid(c) && Inv(c, s) && ParentEnabled(c, s, a, b)
    ensures DataInv(c, ParentApply(c, s, a, b))
  {
    match s.parent.pc {
      case PPipe(i) =>
        assert s.kids == [];
        PipeKeepsData(c, s.buffers, s.src, s.out);
      case PFork(i) =>
        if i < c.n {
          ForkKeepsData(c, s.kids, ParentApply(c, s, a, b).kids[i], s.buffers, s.src, s.out);
        }
      case PJoin(i) =>
        ParentJoinKeepsTables(c, s, a, b);
        GroupsKeepData(c, s.kids, ParentApply(c, s, a, b).kids, s.buffers, s.src, s.out);
      case _ =>
    }
  }

  lemma StepKeepsInv(c: Config, s: State, a: Action)
    requires Valid(c) && Inv(c, s) && Enabled(c, s, a)
    ensures Inv(c, Apply(c, s, a))
  {
    StepKeepsWiring(c, s, a);
    match a {
      case ParentStep(x, y) => ParentStepKeepsData(c, s, x, y);
      case KidStep(i, k) => KidStepKeepsData(c, s, i, k);
      case Reap(i) => GroupsKeepData(c, s.kids, Apply(c, s, a).kids, s.buffers, s.src, s.out);
    }
  }

  lemma InitialInv(c: Config)
    requires Valid(c)
    ensures Inv(c, Initial(c))
  {}

  lemma {:induction false} OutcomeInv(c: Config, s: State, acts: seq<Action>)
    requires Valid(c) && Inv(c, s) && Schedule(c, s, acts)
    ensures Inv(c, Outcome(c, s, acts))
    decreases |acts|
  {
    if acts != [] {
      StepKeepsInv(c, s, acts[0]);
      OutcomeInv(c, Apply(c, s, acts[0]), acts[1..]);
    }
  }
}
