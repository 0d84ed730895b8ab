// run_consumer: one worker per push queue, and a monitor that drops the workers
// that finished and replaces those that failed.
module Supervisor {
  import opened Collections

  /** A worker's queue and the URL of its grader. */
  datatype Job = Job(queue: string, url: string)

  datatype Status = Running | Failed | Finished

  /** None while the process runs; a positive code is a failure, zero or a signal an end. */
  function StatusOf(exitcode: Option<int>): Status {
    match exitcode
    case None => Running
    case Some(code) => if code >= 1 then Failed else Finished
  }

  /** XQUEUES: each queue's name, and the URL of its grader if it is a push queue. */
  type Settings = seq<(string, Option<string>)>

  predicate DistinctQueues(queues: Settings) {
    forall i, j | 0 <= i < j < |queues| :: queues[i].0 != queues[j].0
  }

  function PushJobs(queues: Settings): seq<Job> {
    if queues == [] then []
    else
      var (name, url) := queues[|queues| - 1];
      PushJobs(queues[..|queues| - 1]) + (if url.Some? then [Job(name, url.value)] else [])
  }

  /** The jobs in a given state, in order. */
  function Select(jobs: seq<Job>, code: string -> Option<int>, status: Status): seq<Job> {
    if jobs == [] then []
    else
      var last := jobs[|jobs| - 1];
      Select(jobs[..|jobs| - 1], code, status) + (if StatusOf(code(last.queue)) == status then [last] else [])
  }

  /** One call of monitor: the running workers in order, then new ones for those that failed. */
  function Monitored(jobs: seq<Job>, code: string -> Option<int>): seq<Job> {
    Select(jobs, code, Running) + Select(jobs, code, Failed)
  }

  /** The jobs after a sequence of monitor calls, each seeing arbitrary exit codes. */
  function Supervised(jobs: seq<Job>, history: seq<string -> Option<int>>): seq<Job> {
    if history == [] then jobs
    else Monitored(Supervised(jobs, history[..|history| - 1]), history[|history| - 1])
  }

  predicate DistinctJobs(jobs: seq<Job>) {
    forall i, j | 0 <= i < j < |jobs| :: jobs[i].queue != jobs[j].queue
  }

  lemma {:induction false} SelectHas(jobs: seq<Job>, code: string -> Option<int>, status: Status, job: Job)
    ensures job in Select(jobs, code, status) <==> job in jobs && StatusOf(code(job.queue)) == status
  {
    if jobs != [] {
      var rest, last := jobs[..|jobs| - 1], jobs[|jobs| - 1];
      SelectHas(rest, code, status, job);
      assert jobs == rest + [last];
    }
  }

  lemma {:induction false} SelectDistinct(jobs: seq<Job>, code: string -> Option<int>, status: Status)
    requires DistinctJobs(jobs)
    ensures DistinctJobs(Select(jobs, code, status))
  {
    if jobs != [] {
      var rest, last := jobs[..|jobs| - 1], jobs[|jobs| - 1];
      SelectDistinct(rest, code, status);
      forall i | 0 <= i < |Select(rest, code, status)|
        ensures Select(rest, code, status)[i].queue != last.queue
      {
        SelectHas(rest, code, status, Select(rest, code, status)[i]);
      }
    }
  }

  /** After a call the jobs are those whose process still runs or has failed with a positive code. */
  lemma MonitoredHas(jobs: seq<Job>, code: string -> Option<int>, job: Job)
    ensures job in Monitored(jobs, code)
            <==> job in jobs && (code(job.queue) == None || code(job.queue).value >= 1)
  {
    SelectHas(jobs, code, Running, job);
    SelectHas(jobs, code, Failed, job);
  }

  predicate Precedes(jobs: seq<Job>, a: Job, b: Job) {
    exists p, q :: 0 <= p < q < |jobs| && jobs[p] == a && jobs[q] == b
  }

  /** The jobs in one state keep their order. */
  lemma {:induction false} SelectKeepsOrder(jobs: seq<Job>, code: string -> Option<int>, status: Status, i: nat, j: nat)
    requires i < j < |Select(jobs, code, status)|
    ensures Precedes(jobs, Select(jobs, code, status)[i], Select(jobs, code, status)[j])
  {
    var rest, last := jobs[..|jobs| - 1], jobs[|jobs| - 1];
    var some := Select(jobs, code, status);
    if j < |Select(rest, code, status)| {
      SelectKeepsOrder(rest, code, status, i, j);
      var p, q :| 0 <= p < q < |rest| && rest[p] == some[i] && rest[q] == some[j];
      assert jobs[p] == some[i] && jobs[q] == some[j];
    } else {
      SelectHas(rest, code, status, some[i]);
      var p :| 0 <= p < |rest| && rest[p] == some[i];
      assert jobs[p] == some[i] && jobs[|rest|] == some[j];
    }
  }

  predicate ComesBefore(queues: Settings, a: Job, b: Job) {
    exists p, q :: 0 <= p < q < |queues| && queues[p] == (a.queue, Some(a.url)) && queues[q] == (b.queue, Some(b.url))
  }

  /** The workers start in the order of the settings. */
  lemma {:induction false} PushJobsKeepOrder(queues: Settings, i: nat, j: nat)
    requires i < j < |PushJobs(queues)|
    ensures ComesBefore(queues, PushJobs(queues)[i], PushJobs(queues)[j])
  {
    var rest, last := queues[..|queues| - 1], queues[|queues| - 1];
    var jobs := PushJobs(queues);
    if j < |PushJobs(rest)| {
      PushJobsKeepOrder(rest, i, j);
      var p, q :| 0 <= p < q < |rest| && rest[p] == (jobs[i].queue, Some(jobs[i].url))
                  && rest[q] == (jobs[j].queue, Some(jobs[j].url));
      assert queues[p] == rest[p] && queues[q] == rest[q];
    } else {
      PushJobsHas(rest, jobs[i]);
      var p :| 0 <= p < |rest| && rest[p] == (jobs[i].queue, Some(jobs[i].url));
      assert queues[p] == rest[p] && queues[|rest|] == (jobs[j].queue, Some(jobs[j].url));
    }
  }

  lemma MonitoredDistinct(jobs: seq<Job>, code: string -> Option<int>)
    requires DistinctJobs(jobs)
    ensures DistinctJobs(Monitored(jobs, code))
  {
    var running, failed := Select(jobs, code, Running), Select(jobs, code, Failed);
    SelectDistinct(jobs, code, Running);
    SelectDistinct(jobs, code, Failed);
    forall i, j | 0 <= i < |running| && 0 <= j < |failed| ensures running[i].queue != failed[j].queue {
      SelectHas(jobs, code, Running, running[i]);
      SelectHas(jobs, code, Failed, failed[j]);
    }
  }

  lemma {:induction false} PushJobsHas(queues: Settings, job: Job)
    ensures job in PushJobs(queues) <==> (job.queue, Some(job.url)) in queues
  {
    if queues != [] {
      var rest, last := queues[..|queues| - 1], queues[|queues| - 1];
      PushJobsHas(rest, job);
      assert queues == rest + [last];
      assert last == (job.queue, Some(job.url)) <==> last.1.Some? && Job(last.0, last.1.value) == job;
    }
  }

  lemma {:induction false} PushJobsDistinct(queues: Settings)
    requires DistinctQueues(queues)
    ensures DistinctJobs(PushJobs(queues))
  {
    if queues != [] {
      var rest, last := queues[..|queues| - 1], queues[|queues| - 1];
      PushJobsDistinct(rest);
      forall i | 0 <= i < |PushJobs(rest)| ensures PushJobs(rest)[i].queue != last.0 {
        var job := PushJobs(rest)[i];
        PushJobsHas(rest, job);
        var k :| 0 <= k < |rest| && rest[k] == (job.queue, Some(job.url));
        assert queues[k] == rest[k];
      }
    }
  }

  lemma {:induction false} SupervisedDistinct(queues: Settings, history: seq<string -> Option<int>>)
    requires DistinctQueues(queues)
    ensures DistinctJobs(Supervised(PushJobs(queues), history))
  {
    PushJobsDistinct(queues);
    if history != [] {
      var rest, last := history[..|history| - 1], history[|history| - 1];
      SupervisedDistinct(queues, rest);
      MonitoredDistinct(Supervised(PushJobs(queues), rest), last);
    }
  }

  /** No call found that the queue's worker had ended with code zero or by a signal. */
  predicate NeverFinished(history: seq<string -> Option<int>>, queue: string) {
    forall i | 0 <= i < |history| :: history[i](queue).Some? ==> history[i](queue).value >= 1
  }

  lemma {:induction false} SupervisedHas(queues: Settings, history: seq<string -> Option<int>>, job: Job)
    ensures job in Supervised(PushJobs(queues), history)
            <==> (job.queue, Some(job.url)) in queues && NeverFinished(history, job.queue)
  {
    if history == [] {
      PushJobsHas(queues, job);
    } else {
      var rest, last := history[..|history| - 1], history[|history| - 1];
      SupervisedHas(queues, rest, job);
      SelectHas(Supervised(PushJobs(queues), rest), last, Running, job);
      SelectHas(Supervised(PushJobs(queues), rest), last, Failed, job);
      assert history == rest + [last];
    }
  }

  /** Over any sequence of monitor calls with any exit codes, there is at most one worker per queue, and
      the workers are exactly those for the push queues of the settings that no call found finished. */
  lemma SupervisorInvariant(queues: Settings, history: seq<string -> Option<int>>)
    requires DistinctQueues(queues)
    ensures DistinctJobs(Supervised(PushJobs(queues), history))
    ensures forall job: Job ::
              job in Supervised(PushJobs(queues), history)
              <==> (job.queue, Some(job.url)) in queues && NeverFinished(history, job.queue)
  {
    SupervisedDistinct(queues, history);
    forall job: Job
      ensures job in Supervised(PushJobs(queues), history)
              <==> (job.queue, Some(job.url)) in queues && NeverFinished(history, job.queue)
    {
      SupervisedHas(queues, history, job);
    }
  }

  // ------------------------------------------------------------------- the command

  class Worker {
    const job: Job
    var exitcode: Option<int>  // set by the process when it ends

    constructor (job: Job)
      ensures this.job == job && exitcode == None
    {
      this.job := job;
      exitcode := None;
    }
  }

  function JobsOf(workers: seq<Worker>): (jobs: seq<Job>)
    ensures |jobs| == |workers|
  {
    seq(|workers|, i requires 0 <= i < |workers| => workers[i].job)
  }

  /** list.remove: drops the first occurrence. */
  function Remove(workers: seq<Worker>, w: Worker): seq<Worker>
    requires w in workers
  {
    if workers[0] == w then workers[1..] else [workers[0]] + Remove(workers[1..], w)
  }

  /** The workers with a status, in order. */
  ghost function WithStatus(workers: seq<Worker>, status: Status): seq<Worker>
    reads workers
  {
    if workers == [] then []
    else
      var last := workers[|workers| - 1];
      WithStatus(workers[..|workers| - 1], status) + (if StatusOf(last.exitcode) == status then [last] else [])
  }

  class Command {
    var workers: seq<Worker>

    constructor (queues: Settings)
      ensures JobsOf(workers) == PushJobs(queues)
      ensures forall w | w in workers :: fresh(w) && w.exitcode == None
    {
      var started: seq<Worker> := [];
      for i := 0 to |queues|
        invariant JobsOf(started) == PushJobs(queues[..i])
        invariant forall w | w in started :: fresh(w) && w.exitcode == None
      {
        var (name, url) := queues[i];
        if url.Some? {
          var worker := new Worker(Job(name, url.value));
          started := started + [worker];
        }
        assert queues[..i + 1][..i] == queues[..i];
      }
      assert queues[..|queues|] == queues;
      workers := started;
    }

    /** Running workers stay, in order; finished ones go; each failed one is replaced, at the end of the
        list, by a fresh worker with its queue and URL. */
    method Monitor(ghost code: string -> Option<int>)
      requires DistinctJobs(JobsOf(workers))
      requires forall w | w in workers :: code(w.job.queue) == w.exitcode
      modifies this
      ensures JobsOf(workers) == Monitored(old(JobsOf(workers)), code)
      ensures DistinctJobs(JobsOf(workers))
      ensures var running := old(WithStatus(workers, Running));
              running <= workers && forall w | w in workers[|running|..] :: fresh(w)
      ensures IsMonitored(old(workers), |old(WithStatus(workers, Running))|, workers)
    {
      ghost var start := workers;
      var finishedWorkers, failedWorkers := Classify();
      Classified(start, finishedWorkers, failedWorkers, code);
      KeptAndRestarted(start, finishedWorkers, failedWorkers, code);
      MonitoredDistinct(JobsOf(start), code);
      RemoveAndRestart(finishedWorkers, failedWorkers);
      MonitoredWorkers(start, WithStatus(start, Running), workers, failedWorkers, code);
    }

    method RemoveAndRestart(finishedWorkers: seq<Worker>, failedWorkers: seq<Worker>)
      requires Distinct(workers) && Distinct(finishedWorkers) && Distinct(failedWorkers)
      requires forall w | w in finishedWorkers :: w in workers
      requires forall w | w in failedWorkers :: w in workers && w !in Elements(finishedWorkers)
      modifies this
      ensures var kept := Without(old(workers), Elements(finishedWorkers) + Elements(failedWorkers));
              kept <= workers && JobsOf(workers) == JobsOf(kept) + JobsOf(failedWorkers)
              && forall w | w in workers[|kept|..] :: fresh(w)
    {
      ghost var start := workers;
      RemoveFinished(finishedWorkers);
      RestartFailed(failedWorkers, start, Elements(finishedWorkers));
      ghost var kept := Without(start, Elements(finishedWorkers) + Elements(failedWorkers));
      JobsOfConcat(kept, workers[|kept|..]);
      assert workers == kept + workers[|kept|..];
    }

    method Classify() returns (finishedWorkers: seq<Worker>, failedWorkers: seq<Worker>)
      ensures finishedWorkers == WithStatus(workers, Finished) && failedWorkers == WithStatus(workers, Failed)
    {
      finishedWorkers, failedWorkers := [], [];
      for i := 0 to |workers|
        invariant finishedWorkers == WithStatus(workers[..i], Finished)
        invariant failedWorkers == WithStatus(workers[..i], Failed)
      {
        var worker := workers[i];
        assert workers[..i + 1][..i] == workers[..i];
        match worker.exitcode {
          case None =>
          case Some(exitcode) =>
            if exitcode >= 1 {
              failedWorkers := failedWorkers + [worker];
            } else {
              finishedWorkers := finishedWorkers + [worker];
            }
        }
      }
      assert workers[..|workers|] == workers;
    }

    method RemoveFinished(finishedWorkers: seq<Worker>)
      requires Distinct(workers) && Distinct(finishedWorkers) && forall w | w in finishedWorkers :: w in workers
      modifies this
      ensures workers == Without(old(workers), Elements(finishedWorkers))
    {
      WithoutNone(workers);
      assert Elements(finishedWorkers[..0]) == {};
      for i := 0 to |finishedWorkers|
        invariant workers == Without(old(workers), Elements(finishedWorkers[..i]))
      {
        var worker := finishedWorkers[i];
        assert finishedWorkers[..i + 1] == finishedWorkers[..i] + [worker];
        assert Elements(finishedWorkers[..i + 1]) == Elements(finishedWorkers[..i]) + {worker};
        WithoutHas(old(workers), Elements(finishedWorkers[..i]), worker);
        RemoveIsWithout(old(workers), Elements(finishedWorkers[..i]), worker);
        workers := Remove(workers, worker);
      }
      assert finishedWorkers[..|finishedWorkers|] == finishedWorkers;
    }

    method RestartFailed(failedWorkers: seq<Worker>, ghost start: seq<Worker>, ghost gone: set<Worker>)
      requires Distinct(start) && Distinct(failedWorkers) && workers == Without(start, gone)
      requires forall w | w in failedWorkers :: w in start && w !in gone
      modifies this
      ensures var kept := Without(start, gone + Elements(failedWorkers));
              kept <= workers && JobsOf(workers[|kept|..]) == JobsOf(failedWorkers)
              && forall w | w in workers[|kept|..] :: fresh(w)
    {
      ghost var restarted: seq<Worker> := [];
      assert gone + Elements(failedWorkers[..0]) == gone;
      for i := 0 to |failedWorkers|
        invariant workers == Without(start, gone + Elements(failedWorkers[..i])) + restarted
        invariant JobsOf(restarted) == JobsOf(failedWorkers[..i])
        invariant forall w | w in restarted :: fresh(w)
      {
        var worker := failedWorkers[i];
        ghost var before := gone + Elements(failedWorkers[..i]);
        assert failedWorkers[..i + 1] == failedWorkers[..i] + [worker];
        assert gone + Elements(failedWorkers[..i + 1]) == before + {worker};
        WithoutHas(start, before, worker);
        RemoveIsWithout(start, before, worker);
        RemoveFromFirst(Without(start, before), restarted, worker);
        workers := Remove(workers, worker);
        JobsOfAppend(failedWorkers[..i], worker);
        var newWorker := new Worker(worker.job);
        JobsOfAppend(restarted, newWorker);
        workers := workers + [newWorker];
        restarted := restarted + [newWorker];
      }
      assert failedWorkers[..|failedWorkers|] == failedWorkers;
    }
  }

  lemma Classified(start: seq<Worker>, finished: seq<Worker>, failed: seq<Worker>, code: string -> Option<int>)
    requires DistinctJobs(JobsOf(start)) && forall w | w in start :: code(w.job.queue) == w.exitcode
    requires finished == WithStatus(start, Finished) && failed == WithStatus(start, Failed)
    ensures Distinct(start) && Distinct(finished) && Distinct(failed)
    ensures forall w | w in finished :: w in start
    ensures forall w | w in failed :: w in start && w !in Elements(finished)
  {
    JobsDistinctWorkers(start);
    WithStatusFacts(start, Failed, code);
    WithStatusFacts(start, Finished, code);
  }

  /** By their exit codes: the workers that still run are the first ones of the new list; each that ended with a
      positive code has a successor with its job among the rest, and the rest are such successors. */
  ghost predicate IsMonitored(start: seq<Worker>, running: nat, end: seq<Worker>)
    reads start
  {
    && running <= |end|
    && (forall w | w in start :: w in end[..running] <==> w.exitcode == None)
    && (forall w | w in start && w.exitcode.Some? && w.exitcode.value >= 1 ::
          exists i | running <= i < |end| :: end[i].job == w.job)
    && (forall i | running <= i < |end| :: HasFailed(start, end[i].job))
  }

  /** A worker with the job ended with a positive code. */
  ghost predicate HasFailed(start: seq<Worker>, job: Job)
    reads start
  {
    exists w | w in start :: w.exitcode.Some? && w.exitcode.value >= 1 && w.job == job
  }

  lemma JobsAtOffset(end: seq<Worker>, running: seq<Worker>, failed: seq<Worker>, k: nat)
    requires running <= end && JobsOf(end) == JobsOf(running) + JobsOf(failed) && k < |failed|
    ensures |end| == |running| + |failed| && end[|running| + k].job == failed[k].job
  {
    assert |JobsOf(end)| == |JobsOf(running)| + |JobsOf(failed)|;
    assert JobsOf(end)[|running| + k] == JobsOf(failed)[k];
  }

  lemma MonitoredWorkers(start: seq<Worker>, running: seq<Worker>, end: seq<Worker>, failed: seq<Worker>,
                         code: string -> Option<int>)
    requires Distinct(start) && forall w | w in start :: code(w.job.queue) == w.exitcode
    requires running == WithStatus(start, Running) && failed == WithStatus(start, Failed)
    requires running <= end && JobsOf(end) == JobsOf(running) + JobsOf(failed)
    ensures IsMonitored(start, |running|, end)
  {
    WithStatusFacts(start, Running, code);
    WithStatusFacts(start, Failed, code);
    assert end[..|running|] == running;
    SuccessorsHaveJobs(start, running, end, failed);
  }

  lemma SuccessorsHaveJobs(start: seq<Worker>, running: seq<Worker>, end: seq<Worker>, failed: seq<Worker>)
    requires running <= end && JobsOf(end) == JobsOf(running) + JobsOf(failed)
    requires forall w :: w in failed <==> w in start && StatusOf(w.exitcode) == Failed
    ensures forall w | w in start && w.exitcode.Some? && w.exitcode.value >= 1 ::
              exists i | |running| <= i < |end| :: end[i].job == w.job
    ensures forall i | |running| <= i < |end| :: HasFailed(start, end[i].job)
  {
    assert |JobsOf(end)| == |JobsOf(running)| + |JobsOf(failed)|;
    forall i | |running| <= i < |end| ensures HasFailed(start, end[i].job) {
      JobsAtOffset(end, running, failed, i - |running|);
      assert failed[i - |running|] in failed;
    }
    forall w | w in start && w.exitcode.Some? && w.exitcode.value >= 1
      ensures exists i | |running| <= i < |end| :: end[i].job == w.job
    {
      assert w in failed;
      var k :| 0 <= k < |failed| && failed[k] == w;
      JobsAtOffset(end, running, failed, k);
      assert end[|running| + k].job == w.job;
    }
  }

  lemma KeptAndRestarted(start: seq<Worker>, finished: seq<Worker>, failed: seq<Worker>, code: string -> Option<int>)
    requires Distinct(start) && forall w | w in start :: code(w.job.queue) == w.exitcode
    requires finished == WithStatus(start, Finished) && failed == WithStatus(start, Failed)
    ensures Without(start, Elements(finished) + Elements(failed)) == WithStatus(start, Running)
    ensures JobsOf(WithStatus(start, Running)) + JobsOf(failed) == Monitored(JobsOf(start), code)
  {
    StoppedWorkers(start, finished, failed, code);
    WithoutIsRunning(start, Elements(finished) + Elements(failed));
    StatusJobs(start, Running, code);
    StatusJobs(start, Failed, code);
  }

  lemma StoppedWorkers(start: seq<Worker>, finished: seq<Worker>, failed: seq<Worker>, code: string -> Option<int>)
    requires Distinct(start) && forall w | w in start :: code(w.job.queue) == w.exitcode
    requires finished == WithStatus(start, Finished) && failed == WithStatus(start, Failed)
    ensures forall w | w in start :: w in Elements(finished) + Elements(failed) <==> StatusOf(w.exitcode) != Running
  {
    WithStatusFacts(start, Failed, code);
    WithStatusFacts(start, Finished, code);
  }

  lemma StatusJobs(workers: seq<Worker>, status: Status, code: string -> Option<int>)
    requires Distinct(workers) && forall w | w in workers :: code(w.job.queue) == w.exitcode
    ensures JobsOf(WithStatus(workers, status)) == Select(JobsOf(workers), code, status)
  {
    WithStatusFacts(workers, status, code);
  }

  lemma JobsOfConcat(a: seq<Worker>, b: seq<Worker>)
    ensures JobsOf(a + b) == JobsOf(a) + JobsOf(b)
  {
  }

  lemma JobsOfAppend(workers: seq<Worker>, w: Worker)
    ensures JobsOf(workers + [w]) == JobsOf(workers) + [w.job]
  {
  }

  /** The workers not in the set, in order. */
  ghost function Without(workers: seq<Worker>, gone: set<Worker>): seq<Worker> {
    if workers == [] then []
    else if workers[0] in gone then Without(workers[1..], gone)
    else [workers[0]] + Without(workers[1..], gone)
  }

  lemma JobsDistinctWorkers(workers: seq<Worker>)
    requires DistinctJobs(JobsOf(workers))
    ensures Distinct(workers)
  {
    forall i, j | 0 <= i < j < |workers| ensures workers[i] != workers[j] {
      assert JobsOf(workers)[i].queue != JobsOf(workers)[j].queue;
    }
  }

  lemma {:induction false} WithoutNone(workers: seq<Worker>)
    ensures Without(workers, {}) == workers
  {
    if workers != [] { WithoutNone(workers[1..]); }
  }

  lemma {:induction false} WithoutHas(workers: seq<Worker>, gone: set<Worker>, w: Worker)
    ensures w in Without(workers, gone) <==> w in workers && w !in gone
  {
    if workers != [] {
      WithoutHas(workers[1..], gone, w);
      assert workers == [workers[0]] + workers[1..];
    }
  }

  lemma {:induction false} RemoveIsWithout(workers: seq<Worker>, gone: set<Worker>, w: Worker)
    requires Distinct(workers) && w in workers && w in Without(workers, gone)
    ensures Remove(Without(workers, gone), w) == Without(workers, gone + {w})
  {
    var rest := workers[1..];
    assert workers == [workers[0]] + rest;
    WithoutHas(workers, gone, w);
    WithoutHas(rest, gone, w);
    if workers[0] == w {
      assert w !in rest;
      WithoutSame(rest, gone, w);
    } else {
      assert forall i, j | 0 <= i < j < |rest| :: rest[i] == workers[i + 1] && rest[j] == workers[j + 1];
      RemoveIsWithout(rest, gone, w);
      if workers[0] !in gone {
        var kept := [workers[0]] + Without(rest, gone);
        assert kept == Without(workers, gone) && kept[1..] == Without(rest, gone);
        assert Remove(kept, w) == [workers[0]] + Remove(Without(rest, gone), w);
      }
    }
  }

  lemma {:induction false} WithoutSame(workers: seq<Worker>, gone: set<Worker>, w: Worker)
    requires w !in workers
    ensures Without(workers, gone + {w}) == Without(workers, gone)
  {
    if workers != [] { WithoutSame(workers[1..], gone, w); }
  }

  lemma {:induction false} RemoveFromFirst(first: seq<Worker>, second: seq<Worker>, w: Worker)
    requires w in first
    ensures Remove(first + second, w) == Remove(first, w) + second
  {
    assert (first + second)[1..] == first[1..] + second;
    if first[0] != w { RemoveFromFirst(first[1..], second, w); }
  }

  /** The workers with a status are those of the list that have it ... */
  lemma {:induction false} WithStatusHas(workers: seq<Worker>, status: Status)
    ensures forall w :: w in WithStatus(workers, status) <==> w in workers && StatusOf(w.exitcode) == status
  {
    if workers != [] {
      var rest, last := workers[..|workers| - 1], workers[|workers| - 1];
      assert workers == rest + [last];
      WithStatusHas(rest, status);
    }
  }

  lemma {:induction false} WithStatusDistinct(workers: seq<Worker>, status: Status)
    requires Distinct(workers)
    ensures Distinct(WithStatus(workers, status))
  {
    if workers != [] {
      var rest, last := workers[..|workers| - 1], workers[|workers| - 1];
      assert workers == rest + [last];
      WithStatusDistinct(rest, status);
      WithStatusHas(rest, status);
      assert last !in rest;
    }
  }

  /** ... and their jobs are Select's. */
  lemma {:induction false} WithStatusJobs(workers: seq<Worker>, status: Status, code: string -> Option<int>)
    requires forall w | w in workers :: code(w.job.queue) == w.exitcode
    ensures JobsOf(WithStatus(workers, status)) == Select(JobsOf(workers), code, status)
  {
    if workers != [] {
      var rest, last := workers[..|workers| - 1], workers[|workers| - 1];
      assert workers == rest + [last] && last in workers;
      WithStatusJobs(rest, status, code);
      assert JobsOf(workers)[..|workers| - 1] == JobsOf(rest);
    }
  }

  lemma WithStatusFacts(workers: seq<Worker>, status: Status, code: string -> Option<int>)
    requires Distinct(workers) && forall w | w in workers :: code(w.job.queue) == w.exitcode
    ensures forall w :: w in WithStatus(workers, status) <==> w in workers && StatusOf(w.exitcode) == status
    ensures Distinct(WithStatus(workers, status))
    ensures JobsOf(WithStatus(workers, status)) == Select(JobsOf(workers), code, status)
  {
    WithStatusHas(workers, status);
    WithStatusDistinct(workers, status);
    WithStatusJobs(workers, status, code);
  }

  lemma {:induction false} WithoutIsRunning(workers: seq<Worker>, gone: set<Worker>)
    requires forall w | w in workers :: w in gone <==> StatusOf(w.exitcode) != Running
    ensures Without(workers, gone) == WithStatus(workers, Running)
  {
    if workers != [] {
      var rest, last := workers[..|workers| - 1], workers[|workers| - 1];
      assert workers == rest + [last];
      WithoutIsRunning(rest, gone);
      WithoutSplit(rest, last, gone);
    }
  }

  lemma {:induction false} WithoutSplit(rest: seq<Worker>, last: Worker, gone: set<Worker>)
    ensures Without(rest + [last], gone) == Without(rest, gone) + (if last in gone then [] else [last])
  {
    if rest == [] {
      assert ([last])[1..] == [];
      assert rest + [last] == [last];
    } else {
      WithoutSplit(rest[1..], last, gone);
      assert (rest + [last])[1..] == rest[1..] + [last];
    }
  }
}
