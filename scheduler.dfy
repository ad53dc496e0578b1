/**
 * The job list of the recurring-job scheduler (the `low` queue's scheduler)
 * and `AITasksScheduler` (utils/jobs/scheduler.py), which clears that list
 * and registers the two periodic tasks. The clock reading `datetime.utcnow()`
 * is a parameter.
 */
module Scheduling {

  /** The job functions that can be scheduled. */
  datatype Task = CheckNewCommitsTask | CheckRunningProjectsTask

  /** One scheduled job: its id, the function it runs, the time of its first
      run and the number of seconds between runs. */
  datatype Job = Job(id: nat, task: Task, scheduledTime: int, interval: nat)

  /** The default interval of both `check_*` methods, in seconds. */
  const DEFAULT_INTERVAL: nat := 60

  /** The job list after `job.delete()` for a job with id `id`: every entry
      with that id is gone, the others keep their order. */
  function RemoveJob(jobs: seq<Job>, id: nat): (r: seq<Job>)
    ensures |r| <= |jobs|
    ensures forall j :: j in r <==> j in jobs && j.id != id
    ensures (forall k :: 0 <= k < |jobs| ==> jobs[k].id != id) ==> r == jobs
  {
    if jobs == [] then []
    else if jobs[0].id == id then RemoveJob(jobs[1..], id)
    else [jobs[0]] + RemoveJob(jobs[1..], id)
  }

  /** Deleting the same job twice is the same as deleting it once. */
  lemma RemoveJobIdempotent(jobs: seq<Job>, id: nat)
    ensures RemoveJob(RemoveJob(jobs, id), id) == RemoveJob(jobs, id)
  {
    var r := RemoveJob(jobs, id);
    assert forall k :: 0 <= k < |r| ==> r[k] in r;
  }

  /** The job list after deleting, in order, each job of `deleted`. */
  function Purged(jobs: seq<Job>, deleted: seq<Job>): seq<Job>
    decreases |deleted|
  {
    if deleted == [] then jobs
    else RemoveJob(Purged(jobs, deleted[..|deleted| - 1]), deleted[|deleted| - 1].id)
  }

  /** A job survives the deletions exactly when it was listed and no deleted
      job had its id. */
  lemma {:induction false} PurgedMembers(jobs: seq<Job>, deleted: seq<Job>, j: Job)
    ensures j in Purged(jobs, deleted) <==> j in jobs && forall d :: d in deleted ==> d.id != j.id
    decreases |deleted|
  {
    if deleted != [] {
      var front := deleted[..|deleted| - 1];
      var last := deleted[|deleted| - 1];
      PurgedMembers(jobs, front, j);
      assert deleted == front + [last];
      assert forall d :: d in deleted <==> d in front || d == last;
    }
  }

  /** Deleting every job of a list, one by one, empties it. */
  lemma PurgedAll(jobs: seq<Job>)
    ensures Purged(jobs, jobs) == []
  {
    var r := Purged(jobs, jobs);
    if r != [] {
      var j := r[0];
      assert j in r;
      PurgedMembers(jobs, jobs, j);
      assert false;
    }
  }

  /** The scheduler's job list. Ids come from a counter, so a new job never
      takes the id of a listed one. */
  class Scheduler {
    var jobs: seq<Job>
    var nextId: nat

    ghost predicate Valid()
      reads this
    {
      forall k :: 0 <= k < |jobs| ==> jobs[k].id < nextId
    }

    constructor (jobs: seq<Job>, nextId: nat)
      requires forall k :: 0 <= k < |jobs| ==> jobs[k].id < nextId
      ensures Valid() && this.jobs == jobs && this.nextId == nextId
    {
      this.jobs := jobs;
      this.nextId := nextId;
    }

    /** `get_jobs()`: the jobs listed now. */
    method GetJobs() returns (js: seq<Job>)
      ensures js == jobs
    {
      js := jobs;
    }

    /** `job.delete()`. */
    method Delete(id: nat)
      requires Valid()
      modifies this
      ensures Valid() && jobs == RemoveJob(old(jobs), id) && nextId == old(nextId)
    {
      jobs := RemoveJob(jobs, id);
    }

    /** `schedule(at, task, interval=interval)`: one new recurring job. */
    method Schedule(at: int, task: Task, interval: nat) returns (job: Job)
      requires Valid()
      modifies this
      ensures Valid()
      ensures job == Job(old(nextId), task, at, interval) && job.id !in (set k | 0 <= k < |old(jobs)| :: old(jobs)[k].id)
      ensures jobs == old(jobs) + [job] && nextId == old(nextId) + 1
    {
      job := Job(nextId, task, at, interval);
      jobs := jobs + [job];
      nextId := nextId + 1;
    }
  }

  /** `AITasksScheduler`. */
  class TasksScheduler {
    const scheduler: Scheduler

    /** `__init__`: delete every job listed when it starts, one at a time. */
    constructor (scheduler: Scheduler)
      requires scheduler.Valid()
      modifies scheduler
      ensures this.scheduler == scheduler
      ensures scheduler.Valid() && scheduler.jobs == [] && scheduler.nextId == old(scheduler.nextId)
    {
      this.scheduler := scheduler;
      new;
      var existing := scheduler.GetJobs();
      var i := 0;
      while i < |existing|
        invariant 0 <= i <= |existing|
        invariant scheduler.Valid() && scheduler.nextId == old(scheduler.nextId)
        invariant scheduler.jobs == Purged(existing, existing[..i])
      {
        assert existing[..i + 1][..i] == existing[..i];
        scheduler.Delete(existing[i].id);
        i := i + 1;
      }
      assert existing[..i] == existing;
      PurgedAll(existing);
    }

    /** `check_new_commits`: one job for `check_new_commits_task`, first run now. */
    method CheckNewCommits(now: int, interval: nat := DEFAULT_INTERVAL)
      requires scheduler.Valid()
      modifies scheduler
      ensures scheduler.Valid()
      ensures scheduler.jobs == old(scheduler.jobs) + [Job(old(scheduler.nextId), CheckNewCommitsTask, now, interval)]
      ensures scheduler.nextId == old(scheduler.nextId) + 1
    {
      var _ := scheduler.Schedule(now, CheckNewCommitsTask, interval);
    }

    /** `check_running_projects`: one job for `check_running_projects_task`, first run now. */
    method CheckRunningProjects(now: int, interval: nat := DEFAULT_INTERVAL)
      requires scheduler.Valid()
      modifies scheduler
      ensures scheduler.Valid()
      ensures scheduler.jobs == old(scheduler.jobs) + [Job(old(scheduler.nextId), CheckRunningProjectsTask, now, interval)]
      ensures scheduler.nextId == old(scheduler.nextId) + 1
    {
      var _ := scheduler.Schedule(now, CheckRunningProjectsTask, interval);
    }
  }

  /** How many listed jobs run `task`. */
  function JobsFor(jobs: seq<Job>, task: Task): nat {
    |set k | 0 <= k < |jobs| && jobs[k].task == task|
  }

  /**
   * The start-up sequence of the `utils` application: build the tasks
   * scheduler, then register both tasks with the default interval. Whatever
   * an earlier start left behind, exactly one job per task remains.
   */
  method Ready(scheduler: Scheduler, now: int) returns (tasks: TasksScheduler)
    requires scheduler.Valid()
    modifies scheduler
    ensures scheduler.Valid()
    ensures scheduler.jobs == [Job(old(scheduler.nextId), CheckNewCommitsTask, now, DEFAULT_INTERVAL),
                               Job(old(scheduler.nextId) + 1, CheckRunningProjectsTask, now, DEFAULT_INTERVAL)]
    ensures JobsFor(scheduler.jobs, CheckNewCommitsTask) == 1 && JobsFor(scheduler.jobs, CheckRunningProjectsTask) == 1
  {
    tasks := new TasksScheduler(scheduler);
    tasks.CheckNewCommits(now);
    tasks.CheckRunningProjects(now);
    OneJobPerTask(scheduler.jobs);
  }

  /** Two jobs for the two different tasks: one job each. */
  lemma OneJobPerTask(jobs: seq<Job>)
    requires |jobs| == 2 && jobs[0].task == CheckNewCommitsTask && jobs[1].task == CheckRunningProjectsTask
    ensures JobsFor(jobs, CheckNewCommitsTask) == 1 && JobsFor(jobs, CheckRunningProjectsTask) == 1
  {
    assert (set k | 0 <= k < |jobs| && jobs[k].task == CheckNewCommitsTask) == {0};
    assert (set k | 0 <= k < |jobs| && jobs[k].task == CheckRunningProjectsTask) == {1};
  }
}
