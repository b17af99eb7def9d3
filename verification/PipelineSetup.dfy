/** The loops of execute_pipeline, as one process runs them on its own descriptor table. */
module PipelineSetup {
  import opened Pipeline
  import opened PipelineWiring

  class Process {
    var table: Table
    var pipes: Pipes

    constructor (table: Table)
      ensures this.table == table && this.pipes == []
    {
      this.table := table;
      this.pipes := [];
    }

    /** fork(): the child starts with a copy of the table and of the array of pipes. */
    constructor Fork(parent: Process)
      ensures table == parent.table && pipes == parent.pipes
    {
      table := parent.table;
      pipes := parent.pipes;
    }

    /** `for (i...) pipe(pipes[i])`; `numbers` is what the kernel picks. */
    method CreatePipes(numbers: Pipes)
      requires pipes == [] && FreshEnds(table, numbers)
      modifies this
      ensures pipes == numbers && table == Opened(old(table), numbers)
    {
      for i := 0 to |numbers|
        invariant pipes == numbers[..i] && table == Opened(old(table), numbers[..i])
      {
        var (r, w) := numbers[i];
        assert numbers[..i + 1][..i] == numbers[..i];
        table := table[r := Rd(i)][w := Wr(i)];
        pipes := pipes + [(r, w)];
      }
      assert numbers[..|numbers|] == numbers;
    }

    /** `for (j...) { close(pipes[j][0]); close(pipes[j][1]); }`, in the shell and in every child. */
    method ClosePipes()
      modifies this`table
      ensures table == CloseFirst(old(table), pipes, |pipes|)
    {
      for j := 0 to |pipes|
        invariant table == CloseFirst(old(table), pipes, j)
      {
        table := table - {pipes[j].0};
        table := table - {pipes[j].1};
      }
    }

    /** What child i of n does between fork and exec leaves it with exactly the intended table. */
    method SetUpStage(c: Config, i: nat)
      requires Valid(c) && i < c.n && |pipes| == c.n - 1
      requires FreshEnds(c.base, pipes) && table == Opened(c.base, pipes)
      modifies this`table
      ensures table == Wired(c, i)
    {
      if i > 0 {
        table := Dup2(table, pipes[i - 1].0, 0);
      }
      if i < c.n - 1 {
        table := Dup2(table, pipes[i].1, 1);
      }
      SetupWires(c, pipes, i);
      ClosePipes();
    }
  }

  /** The whole of it without interleaving: n children, each wired, and a shell that ends with
      the table it began with. */
  method ExecutePipeline(c: Config, numbers: Pipes) returns (shell: Process, stages: seq<Process>)
    requires Valid(c) && |numbers| == c.n - 1 && FreshEnds(c.base, numbers)
    ensures shell.table == c.base
    ensures |stages| == c.n && forall i :: 0 <= i < c.n ==> stages[i].table == Wired(c, i)
  {
    shell := new Process(c.base);
    shell.CreatePipes(numbers);
    stages := [];
    for i := 0 to c.n
      invariant fresh(shell) && shell.pipes == numbers && shell.table == Opened(c.base, numbers)
      invariant |stages| == i && shell !in stages
      invariant forall k :: 0 <= k < i ==> stages[k].table == Wired(c, k)
    {
      var child := new Process.Fork(shell);
      child.SetUpStage(c, i);
      stages := stages + [child];
    }
    OpenedAt(c.base, numbers);
    CloseAll(c.base, numbers, shell.table, c.base);
    shell.ClosePipes();
  }
}
