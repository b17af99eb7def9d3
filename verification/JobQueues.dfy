/** The job queue of the thread-pool server as the linked list it is. The methods are what runs
    while the queue's mutex is held; waiting is part of the protocol model. */
module JobQueues {
  import opened Prelude

  class Job {
    const fd: int
    var next: Job?

    constructor (fd: int)
      ensures this.fd == fd && next == null
    {
      this.fd := fd;
      next := null;
    }
  }

  function Fds(jobs: seq<Job>): (r: seq<int>)
    ensures |r| == |jobs| && forall i :: 0 <= i < |jobs| ==> r[i] == jobs[i].fd
  {
    seq(|jobs|, i requires 0 <= i < |jobs| => jobs[i].fd)
  }

  class JobQueue {
    var head: Job?
    var tail: Job?
    var closed: bool
    ghost var jobs: seq<Job>

    ghost predicate Valid()
      reads this, jobs
    {
      && Distinct(jobs)
      && head == (if jobs == [] then null else jobs[0])
      && tail == (if jobs == [] then null else jobs[|jobs| - 1])
      && (forall i {:trigger jobs[i].next} :: 0 <= i < |jobs| ==>
            jobs[i].next == if i == |jobs| - 1 then null else jobs[i + 1])
    }

    ghost function Contents(): seq<int>
      reads this
    {
      Fds(jobs)
    }

    constructor ()
      ensures Valid() && Contents() == [] && !closed
    {
      head, tail, closed := null, null, false;
      jobs := [];
    }

    method Push(fd: int)
      requires Valid()
      modifies this, jobs
      ensures Valid() && Contents() == old(Contents()) + [fd] && closed == old(closed)
      ensures forall j :: j in jobs ==> j in old(jobs) || fresh(j)
    {
      var j := new Job(fd);
      if tail != null {
        tail.next := j;
      } else {
        head := j;
      }
      tail := j;
      jobs := jobs + [j];
      assert Contents() == old(Contents()) + [fd];
    }

    /** jobq_pop once its wait is over: the oldest job, or -1 from a closed and empty queue. */
    method Pop() returns (fd: int)
      requires Valid() && (head != null || closed)
      modifies this
      ensures Valid() && closed == old(closed)
      ensures old(Contents()) == [] ==> fd == -1 && Contents() == []
      ensures old(Contents()) != [] ==> [fd] + Contents() == old(Contents())
      ensures forall j :: j in jobs ==> j in old(jobs)
    {
      if head == null && closed {
        return -1;
      }
      var j := head;
      head := j.next;
      if head == null {
        tail := null;
      }
      fd := j.fd;
      jobs := jobs[1..];
      assert [fd] + Contents() == old(Contents());
    }

    method Close()
      requires Valid()
      modifies this`closed
      ensures Valid() && closed && Contents() == old(Contents())
    {
      closed := true;
    }
  }
}
