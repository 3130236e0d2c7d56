// The worker slots of the real-time manager (worker_management.c): the queue of free slots, and for each slot its
// job and its descriptor.
module WorkerSlots {
  import opened Jobs
  import opened LinkedQueues
  import opened Scheduler
  import opened SchedulerRuns

  /** The ends of a pipe are new numbers, and closing them again undoes the pipe. */
  lemma {:induction false} PipeEnds(open: set<nat>)
    ensures var r := ReadEnd(open);
            var w := Lowest(open + {r}, 0);
            && r == Lowest(open, 0) && (open + {r, w}) - {w} == open + {r} && (open + {r, w}) - {r, w} == open
  {
  }

  class Slots {
    var limit: nat
    var active: int
    const free: Queue<nat>
    var jobs: map<nat, Task>
    var fds: map<nat, nat>      // pfds of the slots, where it is not -1
    var open: set<nat>          // the open descriptors of the process
    ghost var lost: set<nat>

    ghost predicate Valid()
      reads free, free.nodes
    {
      free.Valid()
    }

    constructor (limit: nat, open: set<nat>)
      ensures Valid() && fresh(free) && fresh(free.nodes)
      ensures var s := Init(limit, open);
              && this.limit == s.limit && active == s.active && free.contents == s.free && jobs == s.busy
              && lost == s.lost && fds == s.fds && this.open == s.open
    {
      var slots := new Queue<nat>();
      for i := 0 to limit
        invariant slots.Valid() && fresh(slots) && fresh(slots.nodes)
        invariant slots.contents == seq(i, k => k + 2)
      {
        slots.Enqueue(i + 2);
        assert slots.nodes == slots.nodes[..|slots.nodes| - 1] + [slots.nodes[|slots.nodes| - 1]];
      }
      this.limit, active, jobs, lost, free := limit, 0, map[], {}, slots;
      fds, this.open := map[], open;
    }

    method AvailableWorkers() returns (r: int)
      ensures r == limit - active
    {
      r := limit - active;
    }

    /** The first free slot, or 0 if there is none. */
    method TakeSlot() returns (slot: nat)
      requires Valid()
      modifies free
      ensures Valid()
      ensures slot == if old(free.contents) == [] then 0 else old(free.contents)[0]
      ensures if old(free.contents) == [] then free.contents == [] && free.nodes == old(free.nodes)
              else free.contents == old(free.contents)[1..] && free.nodes == old(free.nodes)[1..]
    {
      slot := free.Dequeue(0);
    }

    /** worker_manager_setup_worker: `outcome` is what pipe and fork do. */
    method SetupWorker(job: Job, outcome: Setup) returns (pid: int)
      requires Valid()
      modifies this, free
      ensures Valid() && limit == old(limit)
      ensures old(active) == limit ==>
                pid == -1 && free.contents == old(free.contents) && free.nodes == old(free.nodes)
                && jobs == old(jobs) && active == old(active) && lost == old(lost) && fds == old(fds) && open == old(open)
      ensures old(active) != limit ==>
                if old(free.contents) == [] then free.contents == [] && free.nodes == old(free.nodes)
                else free.contents == old(free.contents)[1..] && free.nodes == old(free.nodes)[1..]
      ensures old(active) != limit ==>
                var slot := if old(free.contents) == [] then 0 else old(free.contents)[0];
                var readEnd, gone := ReadEnd(old(open)), old(lost) + if old(free.contents) == [] then {} else {slot};
                match outcome
                case Started(p) => pid == p && jobs == old(jobs)[slot := Task(job, p)] && active == old(active) + 1
                                   && fds == old(fds)[slot := readEnd] && open == old(open) + {readEnd} && lost == old(lost)
                case PipeFailed => pid < -1 && jobs == old(jobs) && active == old(active)
                                   && fds == old(fds) && open == old(open) && lost == gone
                case ForkFailed => pid < -1 && jobs == old(jobs) && active == old(active)
                                   && fds == old(fds)[slot := readEnd] && open == old(open) && lost == gone
    {
      var available := AvailableWorkers();
      if available == 0 {
        return -1;
      }
      PipeEnds(open);
      hide *;
      ghost var before := free.contents;
      var slot := TakeSlot();
      if outcome.PipeFailed? {
        lost := lost + if before == [] then {} else {slot};
        return -2;
      }
      var readEnd := Lowest(open, 0);
      var writeEnd := Lowest(open + {readEnd}, 0);
      open := open + {readEnd, writeEnd};
      fds := fds[slot := readEnd];
      if outcome.ForkFailed? {
        open := open - {readEnd, writeEnd};
        lost := lost + if before == [] then {} else {slot};
        return -3;
      }
      open := open - {writeEnd};
      jobs := jobs[slot := Task(job, outcome.pid)];
      active := active + 1;
      pid := outcome.pid;
    }

    /** worker_manager_free_worker: the slot goes to the end of the queue, unless its descriptor cannot be closed. */
    method FreeWorker(slot: nat) returns (r: int)
      requires Valid() && slot in jobs
      modifies this, free, free.nodes
      ensures Valid() && limit == old(limit) && lost == old(lost)
      ensures r == if slot in old(fds) && old(fds)[slot] in old(open) then 0 else -1
      ensures r < 0 ==> free.contents == old(free.contents) && free.nodes == old(free.nodes) && jobs == old(jobs)
                        && active == old(active) && fds == old(fds) && open == old(open)
      ensures r == 0 ==> free.contents == old(free.contents) + [slot]
                         && |free.nodes| == |old(free.nodes)| + 1 && free.nodes[..|free.nodes| - 1] == old(free.nodes)
                         && fresh(free.nodes[|free.nodes| - 1])
      ensures r == 0 ==> jobs == old(jobs) - {slot} && active == old(active) - 1
                         && fds == old(fds) - {slot} && open == old(open) - {old(fds)[slot]}
    {
      if slot !in fds || fds[slot] !in open {
        return -1;
      }
      open := open - {fds[slot]};
      fds := fds - {slot};
      free.Enqueue(slot);
      jobs := jobs - {slot};
      active := active - 1;
      r := 0;
    }
  }
}
