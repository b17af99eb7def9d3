/** Producer and consumer over N slots in shared memory, kept apart by three semaphores. A step
    is one semaphore operation or one access to a slot's field, and the two processes' steps
    interleave in any way. */
module Semaphores {
  import opened Prelude

  const MSG_SIZE := 64

  datatype Message = Message(id: int, text: string)

  /** What snprintf leaves in slot i's text. */
  function TextFor(i: nat): (text: string)
    ensures text <= "Hello Child via shared memory with semaphores " + Decimal(i + 1)
    ensures |text| == if 46 + |Decimal(i + 1)| < MSG_SIZE then 46 + |Decimal(i + 1)| else MSG_SIZE - 1
  {
    var s := "Hello Child via shared memory with semaphores " + Decimal(i + 1);
    if |s| < MSG_SIZE then s else s[..MSG_SIZE - 1]
  }

  function Complete(i: nat): Message { Message(i + 1, TextFor(i)) }

  /** The producer's place in its loop; after the last round it waits for its child and cleans up. */
  datatype ProducerPc = WaitEmpty | WaitMutex | PutId | PutText | PostMutex | PostFull | Reap | Destroy | Over

  /** The consumer's; printf fetches the id first, then the text. */
  datatype ConsumerPc = WaitFull | LockMutex | GetId | GetText(id: int) | Clear | UnlockMutex | PostEmpty | Quit

  datatype State = State(
    n: nat, mutex: nat, empty: nat, full: nat, destroyed: bool, slots: seq<Message>,
    p: ProducerPc, i: nat, c: ConsumerPc, j: nat, printed: seq<Message>)

  function Initial(n: nat): State {
    State(n, 1, n, 0, false, seq(n, _ => Message(0, "")),
          if n == 0 then Reap else WaitEmpty, 0, if n == 0 then Quit else WaitFull, 0, [])
  }

  predicate ProducerEnabled(s: State) {
    match s.p
    case WaitEmpty => s.empty > 0
    case WaitMutex => s.mutex > 0
    case PutId => s.i < |s.slots|
    case PutText => s.i < |s.slots|
    case Reap => s.c.Quit?
    case Over => false
    case _ => true
  }

  function ProducerStep(s: State): State
    requires ProducerEnabled(s)
  {
    match s.p
    case WaitEmpty => s.(empty := s.empty - 1, p := WaitMutex)
    case WaitMutex => s.(mutex := s.mutex - 1, p := PutId)
    case PutId => s.(slots := s.slots[s.i := s.slots[s.i].(id := s.i + 1)], p := PutText)
    case PutText => s.(slots := s.slots[s.i := s.slots[s.i].(text := TextFor(s.i))], p := PostMutex)
    case PostMutex => s.(mutex := s.mutex + 1, p := PostFull)
    case PostFull => s.(full := s.full + 1, i := s.i + 1, p := if s.i + 1 < s.n then WaitEmpty else Reap)
    case Reap => s.(p := Destroy)
    case Destroy => s.(destroyed := true, p := Over)
  }

  predicate ConsumerEnabled(s: State) {
    match s.c
    case WaitFull => s.full > 0
    case LockMutex => s.mutex > 0
    case GetId => s.j < |s.slots|
    case GetText(_) => s.j < |s.slots|
    case Clear => s.j < |s.slots|
    case Quit => false
    case _ => true
  }

  function ConsumerStep(s: State): State
    requires ConsumerEnabled(s)
  {
    match s.c
    case WaitFull => s.(full := s.full - 1, c := LockMutex)
    case LockMutex => s.(mutex := s.mutex - 1, c := GetId)
    case GetId => s.(c := GetText(s.slots[s.j].id))
    case GetText(id) => s.(printed := s.printed + [Message(id, s.slots[s.j].text)], c := Clear)
    case Clear => s.(slots := s.slots[s.j := s.slots[s.j].(id := 0)], c := UnlockMutex)
    case UnlockMutex => s.(mutex := s.mutex + 1, c := PostEmpty)
    case PostEmpty => s.(empty := s.empty + 1, j := s.j + 1, c := if s.j + 1 < s.n then WaitFull else Quit)
  }

  predicate Next(s: State, t: State) {
    (ProducerEnabled(s) && t == ProducerStep(s)) || (ConsumerEnabled(s) && t == ConsumerStep(s))
  }

  ghost predicate IsRun(n: nat, run: seq<State>) {
    |run| > 0 && run[0] == Initial(n) && forall k :: StepAt(run, k)
  }

  predicate StepAt(run: seq<State>, k: int) {
    0 < k < |run| ==> Next(run[k - 1], run[k])
  }

  /* ---- The invariant ---- */

  function Bit(b: bool): nat { if b then 1 else 0 }

  predicate ProducerInside(s: State) { s.p.PutId? || s.p.PutText? || s.p.PostMutex? }

  predicate ConsumerInside(s: State) { s.c.GetId? || s.c.GetText? || s.c.Clear? || s.c.UnlockMutex? }

  /** Between sem_wait(empty) and sem_post(full). */
  predicate ProducerInFlight(s: State) { s.p.WaitMutex? || ProducerInside(s) || s.p.PostFull? }

  /** Between sem_wait(full) and sem_post(empty). */
  predicate ConsumerInFlight(s: State) { s.c.LockMutex? || ConsumerInside(s) || s.c.PostEmpty? }

  /** What slot k must hold. */
  function Slot(s: State, k: nat): Message {
    var written := k < s.i || (k == s.i && (s.p.PostMutex? || s.p.PostFull?));
    var text := if written then TextFor(k) else "";
    if k < s.j || (k == s.j && (s.c.UnlockMutex? || s.c.PostEmpty?)) then Message(0, text)
    else Message(if written || (k == s.i && s.p.PutText?) then k + 1 else 0, text)
  }

  ghost predicate Counts(s: State) {
    && s.mutex + Bit(ProducerInside(s)) + Bit(ConsumerInside(s)) == 1
    && s.empty + s.full + Bit(ProducerInFlight(s)) + Bit(ConsumerInFlight(s)) == s.n
    && s.j + Bit(ConsumerInFlight(s)) + s.full == s.i
    && s.i <= s.n && s.j <= s.n
    && (s.i == s.n <==> s.p.Reap? || s.p.Destroy? || s.p.Over?)
    && (s.j == s.n <==> s.c.Quit?)
    && (s.p.Destroy? || s.p.Over? ==> s.c.Quit?)
    && (s.destroyed <==> s.p.Over?)
  }

  ghost predicate SlotsHold(s: State) {
    |s.slots| == s.n && forall k :: 0 <= k < s.n ==> s.slots[k] == Slot(s, k)
  }

  ghost predicate ReadsHold(s: State) {
    && (s.c.GetText? ==> s.c.id == s.j + 1)
    && |s.printed| == s.j + Bit(s.c.Clear? || s.c.UnlockMutex? || s.c.PostEmpty?)
    && (forall k :: 0 <= k < |s.printed| ==> s.printed[k] == Complete(k))
  }

  ghost predicate Inv(s: State) { Counts(s) && SlotsHold(s) && ReadsHold(s) }

  lemma ProducerKeepsCounts(s: State)
    requires Counts(s) && ProducerEnabled(s)
    ensures Counts(ProducerStep(s))
  {}

  lemma ConsumerKeepsCounts(s: State)
    requires Counts(s) && ConsumerEnabled(s)
    ensures Counts(ConsumerStep(s))
  {}

  /** The producer's step touches slot i only, and the consumer is not there. */
  lemma ProducerKeepsSlot(s: State, k: nat)
    requires Counts(s) && ProducerEnabled(s) && k < s.n == |s.slots| && s.slots[k] == Slot(s, k)
    ensures ProducerStep(s).slots[k] == Slot(ProducerStep(s), k)
  {}

  lemma ProducerKeepsSlots(s: State)
    requires Inv(s) && ProducerEnabled(s)
    ensures SlotsHold(ProducerStep(s)) && ReadsHold(ProducerStep(s))
  {
    forall k: nat | k < s.n ensures ProducerStep(s).slots[k] == Slot(ProducerStep(s), k) {
      ProducerKeepsSlot(s, k);
    }
  }

  /** The consumer's step touches slot j only, and the producer is not there. */
  lemma ConsumerKeepsSlot(s: State, k: nat)
    requires Counts(s) && ConsumerEnabled(s) && k < s.n == |s.slots| && s.slots[k] == Slot(s, k)
    ensures ConsumerStep(s).slots[k] == Slot(ConsumerStep(s), k)
  {}

  lemma ConsumerKeepsSlots(s: State)
    requires Counts(s) && SlotsHold(s) && ConsumerEnabled(s)
    ensures SlotsHold(ConsumerStep(s))
  {
    forall k: nat | k < s.n ensures ConsumerStep(s).slots[k] == Slot(ConsumerStep(s), k) {
      ConsumerKeepsSlot(s, k);
    }
  }

  /** What the consumer finds in slot j while it is inside. */
  lemma ConsumerFinds(s: State)
    requires Counts(s) && SlotsHold(s) && (s.c.GetId? || s.c.GetText?)
    ensures s.j < s.n && s.slots[s.j] == Message(s.j + 1, TextFor(s.j))
  {
    assert s.slots[s.j] == Slot(s, s.j);
  }

  lemma ConsumerKeepsReads(s: State)
    requires Inv(s) && ConsumerEnabled(s)
    ensures ReadsHold(ConsumerStep(s))
  {
    if s.c.GetId? || s.c.GetText? {
      ConsumerFinds(s);
    }
  }

  lemma ProducerKeepsInv(s: State)
    requires Inv(s) && ProducerEnabled(s)
    ensures Inv(ProducerStep(s))
  {
    ProducerKeepsCounts(s);
    ProducerKeepsSlots(s);
  }

  lemma ConsumerKeepsInv(s: State)
    requires Inv(s) && ConsumerEnabled(s)
    ensures Inv(ConsumerStep(s))
  {
    ConsumerKeepsCounts(s);
    ConsumerKeepsSlots(s);
    ConsumerKeepsReads(s);
  }

  lemma StepKeepsInv(s: State, t: State)
    requires Inv(s) && Next(s, t)
    ensures Inv(t) && t.n == s.n
  {
    if ProducerEnabled(s) && t == ProducerStep(s) {
      ProducerKeepsInv(s);
    } else {
      ConsumerKeepsInv(s);
    }
  }

  lemma InitialInv(n: nat)
    ensures Inv(Initial(n))
  {}

  lemma RunStep(n: nat, run: seq<State>, k: nat)
    requires IsRun(n, run) && 0 < k < |run|
    ensures Next(run[k - 1], run[k])
  {
    assert StepAt(run, k);
  }

  lemma {:induction false} RunInv(n: nat, run: seq<State>, k: nat)
    requires IsRun(n, run) && k < |run|
    ensures Inv(run[k]) && run[k].n == n
  {
    if k == 0 {
      InitialInv(n);
    } else {
      RunInv(n, run, k - 1);
      RunStep(n, run, k);
      StepKeepsInv(run[k - 1], run[k]);
    }
  }

  /* ---- Theorems, for every run of every length and every number of slots ---- */

  /** Never both inside; the mutex is free exactly when neither is. */
  lemma MutualExclusion(n: nat, run: seq<State>, k: nat)
    requires IsRun(n, run) && k < |run|
    ensures !(ProducerInside(run[k]) && ConsumerInside(run[k]))
    ensures run[k].mutex == if ProducerInside(run[k]) || ConsumerInside(run[k]) then 0 else 1
  {
    RunInv(n, run, k);
  }

  /** Every slot is counted once: free, filled, being filled or being emptied. */
  lemma SlotsConserved(n: nat, run: seq<State>, k: nat)
    requires IsRun(n, run) && k < |run|
    ensures run[k].empty + run[k].full + Bit(ProducerInFlight(run[k])) + Bit(ConsumerInFlight(run[k])) == n
  {
    RunInv(n, run, k);
  }

  /** The consumer's m-th read sees the whole m-th message, never an id without its text. */
  lemma ReadsAreComplete(n: nat, run: seq<State>, k: nat, m: nat)
    requires IsRun(n, run) && k < |run| && m < |run[k].printed|
    ensures run[k].printed[m] == Complete(m)
  {
    RunInv(n, run, k);
  }

  /** A text whose number has at most ten digits fits its buffer. */
  lemma TextReads(i: nat)
    requires i + 1 < 0x8000_0000
    ensures TextFor(i) == "Hello Child via shared memory with semaphores " + Decimal(i + 1)
    ensures NumberOf(Decimal(i + 1)) == i + 1 && forall c <- Decimal(i + 1) :: IsDigit(c)
  {
    assert Pow10(10) == 10_000_000_000 by {
      assert Pow10(2) == 100 && Pow10(4) == 10000 && Pow10(6) == 1000000 && Pow10(8) == 100000000;
    }
    DecimalLength(i + 1, 10);
    DecimalReads(i + 1);
    assert |"Hello Child via shared memory with semaphores "| == 46;
  }

  /** Spelled out: the m-th message read has number m + 1, and its text is the fixed words
      followed by that number in decimal digits. */
  lemma ReadsAreNumbered(n: nat, run: seq<State>, k: nat, m: nat) returns (digits: string)
    requires IsRun(n, run) && k < |run| && m < |run[k].printed| && m + 1 < 0x8000_0000
    ensures run[k].printed[m].id == m + 1 == NumberOf(digits) && forall c <- digits :: IsDigit(c)
    ensures run[k].printed[m].text == "Hello Child via shared memory with semaphores " + digits
  {
    ReadsAreComplete(n, run, k, m);
    TextReads(m);
    digits := Decimal(m + 1);
  }

  /** The semaphores are destroyed only when the consumer has finished with them. */
  lemma DestroyedLast(n: nat, run: seq<State>, k: nat)
    requires IsRun(n, run) && k < |run| && run[k].destroyed
    ensures run[k].c.Quit? && run[k].mutex == 1 && run[k].full == 0 && run[k].empty == n
  {
    RunInv(n, run, k);
  }

  predicate Final(s: State) { s.p.Over? && s.c.Quit? }

  lemma NotStuck(s: State)
    requires Inv(s) && !Final(s)
    ensures ProducerEnabled(s) || ConsumerEnabled(s)
  {}

  function ProducerRank(p: ProducerPc): nat {
    match p
    case WaitEmpty => 0
    case WaitMutex => 1
    case PutId => 2
    case PutText => 3
    case PostMutex => 4
    case PostFull => 5
    case Reap => 0
    case Destroy => 1
    case Over => 2
  }

  function ConsumerRank(c: ConsumerPc): nat {
    match c
    case WaitFull => 0
    case LockMutex => 1
    case GetId => 2
    case GetText(_) => 3
    case Clear => 4
    case UnlockMutex => 5
    case PostEmpty => 6
    case Quit => 0
  }

  /** The steps left: 6 for each message to write and 2 to clean up, 7 for each to read. */
  function Work(s: State): int {
    6 * (s.n - s.i) + 2 - ProducerRank(s.p) + 7 * (s.n - s.j) - ConsumerRank(s.c)
  }

  lemma WorkIsNatural(s: State)
    requires Counts(s)
    ensures Work(s) >= 0
  {}

  lemma ProducerWorks(s: State)
    requires Counts(s) && ProducerEnabled(s)
    ensures Work(ProducerStep(s)) == Work(s) - 1
  {}

  lemma ConsumerWorks(s: State)
    requires Counts(s) && ConsumerEnabled(s)
    ensures Work(ConsumerStep(s)) == Work(s) - 1
  {}

  /** Each step is worth exactly one unit of work. */
  lemma StepIsWork(s: State, t: State)
    requires Counts(s) && Next(s, t)
    ensures Work(t) == Work(s) - 1
  {
    if ProducerEnabled(s) && t == ProducerStep(s) {
      ProducerWorks(s);
    } else {
      ConsumerWorks(s);
    }
  }

  lemma WorkStep(n: nat, run: seq<State>, k: nat)
    requires IsRun(n, run) && 0 < k < |run|
    ensures Work(run[k]) == Work(run[k - 1]) - 1
  {
    RunInv(n, run, k - 1);
    RunStep(n, run, k);
    StepIsWork(run[k - 1], run[k]);
  }

  lemma {:induction false} WorkSpent(n: nat, run: seq<State>, k: nat)
    requires IsRun(n, run) && k < |run|
    ensures Work(run[k]) + k == Work(run[0])
  {
    if k > 0 {
      WorkSpent(n, run, k - 1);
      WorkStep(n, run, k);
    }
  }

  lemma InitialWork(n: nat)
    ensures Work(Initial(n)) == 13 * n + 2
  {}

  lemma WorkDone(n: nat, run: seq<State>, k: nat)
    requires IsRun(n, run) && k < |run|
    ensures Work(run[k]) + k == 13 * n + 2
  {
    WorkSpent(n, run, k);
    InitialWork(n);
  }

  /** Every run ends, all of them after the same number of steps, and only in the final state:
      there the consumer has printed all N messages in order and every slot is empty again. */
  lemma EveryRunEnds(n: nat, run: seq<State>)
    requires IsRun(n, run)
    ensures |run| <= 13 * n + 3
    ensures
      var last := run[|run| - 1];
      !ProducerEnabled(last) && !ConsumerEnabled(last) ==>
        && |run| == 13 * n + 3 && Final(last)
        && |last.printed| == |last.slots| == n && (forall k :: 0 <= k < n ==> last.printed[k] == Complete(k))
        && last.empty == n && last.full == 0 && forall k :: 0 <= k < n ==> last.slots[k].id == 0
  {
    var last := run[|run| - 1];
    WorkDone(n, run, |run| - 1);
    RunInv(n, run, |run| - 1);
    WorkIsNatural(last);
    if !Final(last) {
      NotStuck(last);
    }
    forall k | 0 <= k < n && Final(last) ensures last.slots[k].id == 0 {
      assert last.slots[k] == Slot(last, k);
    }
  }

  /* ---- The steps of both processes on shared memory ---- */

  class SharedMemory {
    const n: nat
    var mutex: nat
    var empty: nat
    var full: nat
    var destroyed: bool
    const messages: array<Message>
    var p: ProducerPc
    var i: nat
    var c: ConsumerPc
    var j: nat
    var printed: seq<Message>

    ghost function View(): State
      reads this, messages
    {
      State(n, mutex, empty, full, destroyed, messages[..], p, i, c, j, printed)
    }

    constructor (n: nat)
      ensures View() == Initial(n) && fresh(messages)
    {
      this.n := n;
      mutex, empty, full, destroyed := 1, n, 0, false;
      messages := new Message[n](_ => Message(0, ""));
      p, i := if n == 0 then Reap else WaitEmpty, 0;
      c, j := if n == 0 then Quit else WaitFull, 0;
      printed := [];
    }

    method Produce()
      requires ProducerEnabled(View())
      modifies this, messages
      ensures View() == ProducerStep(old(View()))
    {
      match p {
        case WaitEmpty => empty, p := empty - 1, WaitMutex;
        case WaitMutex => mutex, p := mutex - 1, PutId;
        case PutId => messages[i], p := messages[i].(id := i + 1), PutText;
        case PutText => messages[i], p := messages[i].(text := TextFor(i)), PostMutex;
        case PostMutex => mutex, p := mutex + 1, PostFull;
        case PostFull => full, i, p := full + 1, i + 1, if i + 1 < n then WaitEmpty else Reap;
        case Reap => p := Destroy;
        case Destroy => destroyed, p := true, Over;
      }
    }

    method Consume()
      requires ConsumerEnabled(View())
      modifies this, messages
      ensures View() == ConsumerStep(old(View()))
    {
      match c {
        case WaitFull => full, c := full - 1, LockMutex;
        case LockMutex => mutex, c := mutex - 1, GetId;
        case GetId => c := GetText(messages[j].id);
        case GetText(id) => printed, c := printed + [Message(id, messages[j].text)], Clear;
        case Clear => messages[j], c := messages[j].(id := 0), UnlockMutex;
        case UnlockMutex => mutex, c := mutex + 1, PostEmpty;
        case PostEmpty => empty, j, c := empty + 1, j + 1, if j + 1 < n then WaitFull else Quit;
      }
    }

    method ProducerCanRun() returns (b: bool)
      ensures b == ProducerEnabled(View())
    {
      match p {
        case WaitEmpty => b := empty > 0;
        case WaitMutex => b := mutex > 0;
        case PutId => b := i < messages.Length;
        case PutText => b := i < messages.Length;
        case Reap => b := c.Quit?;
        case Over => b := false;
        case _ => b := true;
      }
    }

    method ConsumerCanRun() returns (b: bool)
      ensures b == ConsumerEnabled(View())
    {
      match c {
        case WaitFull => b := full > 0;
        case LockMutex => b := mutex > 0;
        case GetId => b := j < messages.Length;
        case GetText(_) => b := j < messages.Length;
        case Clear => b := j < messages.Length;
        case Quit => b := false;
        case _ => b := true;
      }
    }

    /** One step of whichever process the scheduler likes, among those not blocked. */
    method OneStep()
      requires Inv(View()) && !Final(View())
      modifies this, messages
      ensures Next(old(View()), View()) && Inv(View())
      ensures 0 <= Work(View()) < Work(old(View()))
    {
      ghost var s := View();
      NotStuck(s);
      var producer := ProducerCanRun();
      var consumer := ConsumerCanRun();
      if {
        case producer =>
          ProducerKeepsInv(s);
          ProducerWorks(s);
          Produce();
        case consumer =>
          ConsumerKeepsInv(s);
          ConsumerWorks(s);
          Consume();
      }
      WorkIsNatural(View());
    }
  }

  /** Any scheduler, choosing freely between the processes that are not blocked, gets to the end
      and prints the N messages in order. */
  method Execute(n: nat) returns (printed: seq<Message>)
    ensures |printed| == n && forall k :: 0 <= k < n ==> printed[k] == Complete(k)
  {
    var shm := new SharedMemory(n);
    while !(shm.p.Over? && shm.c.Quit?)
      invariant fresh(shm) && fresh(shm.messages) && shm.n == n && Inv(shm.View())
      decreases Work(shm.View())
    {
      shm.OneStep();
    }
    printed := shm.printed;
  }
}
