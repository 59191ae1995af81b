/** The background job scheduler: registered jobs, and the one context each running job has. */
module Scheduler {

  datatype Job = Job(name: string, payload: nat)

  /** A job goroutine's context. It is also done once the scheduler's own context is. */
  datatype Context = Context(job: Job, cancelled: bool)

  datatype Call = Register(job: Job) | Start | Unregister(name: string) | Stop

  /** The jobs a sequence of calls leaves registered. Removing a job looks for its context, so
      before Start it finds nothing to remove. */
  function JobsAfter(calls: seq<Call>): map<string, Job> {
    if calls == [] then map[]
    else
      var n := |calls| - 1;
      match calls[n]
      case Register(job) => JobsAfter(calls[..n])[job.name := job]
      case Unregister(name) => if Start in calls[..n] then JobsAfter(calls[..n]) - {name} else JobsAfter(calls[..n])
      case _ => JobsAfter(calls[..n])
  }

  /** What the callers asked for: the job of the last registration not followed by a removal. */
  function Wanted(calls: seq<Call>): map<string, Job> {
    if calls == [] then map[]
    else
      var n := |calls| - 1;
      match calls[n]
      case Register(job) => Wanted(calls[..n])[job.name := job]
      case Unregister(name) => Wanted(calls[..n]) - {name}
      case _ => Wanted(calls[..n])
  }

  /** The contexts with those of one name cancelled. */
  function Retired(contexts: seq<Context>, name: string): (after: seq<Context>)
    ensures |after| == |contexts|
    ensures forall i | 0 <= i < |contexts| ::
      after[i] == Context(contexts[i].job, contexts[i].cancelled || contexts[i].job.name == name)
  {
    seq(|contexts|, i requires 0 <= i < |contexts| =>
      Context(contexts[i].job, contexts[i].cancelled || contexts[i].job.name == name))
  }

  class Scheduler {
    var jobs: map<string, Job>
    var jobCancels: map<string, nat>
    var contexts: seq<Context>
    var started: bool
    var stopped: bool

    /** The context is neither cancelled itself nor through the scheduler's. */
    predicate Live(i: nat)
      reads this
      requires i < |contexts|
    {
      !contexts[i].cancelled && !stopped
    }

    ghost predicate Valid()
      reads this
    {
      && (forall n | n in jobs :: jobs[n].name == n)
      && (!started ==> contexts == [] && jobCancels == map[])
      && (started ==> jobCancels.Keys == jobs.Keys)
      && Tracked(jobs.Keys)
    }

    /** Every context not cancelled is the one on record for its name and runs the registered job,
        and every name on record has such a context. */
    ghost predicate Tracked(names: set<string>)
      reads this
    {
      && (forall n | n in jobCancels ::
            && n in jobs && jobCancels[n] < |contexts| && !contexts[jobCancels[n]].cancelled
            && contexts[jobCancels[n]].job == jobs[n])
      && (forall i | 0 <= i < |contexts| && !contexts[i].cancelled ::
            contexts[i].job.name in jobCancels && jobCancels[contexts[i].job.name] == i)
    }

    lemma {:induction false} OnlyOneToRetire(name: string)
      requires Valid()
      ensures Retired(contexts, name) ==
        if name in jobCancels then contexts[jobCancels[name] := contexts[jobCancels[name]].(cancelled := true)]
          else contexts
    {
    }

    /** The live contexts are those of the registered jobs, one each. */
    lemma {:induction false} RunningJobs()
      requires Valid()
      ensures forall i | 0 <= i < |contexts| && Live(i) ::
        contexts[i].job.name in jobs && contexts[i].job == jobs[contexts[i].job.name]
      ensures forall i, j | 0 <= i < j < |contexts| && Live(i) && Live(j) ::
        contexts[i].job.name != contexts[j].job.name
      ensures started && !stopped ==>
        forall n | n in jobs :: exists i | 0 <= i < |contexts| :: Live(i) && contexts[i].job == jobs[n]
    {
      forall n | n in jobs && started && !stopped
        ensures exists i | 0 <= i < |contexts| :: Live(i) && contexts[i].job == jobs[n]
      {
        assert Live(jobCancels[n]);
      }
    }

    constructor ()
      ensures Valid() && jobs == map[] && !started && !stopped
    {
      jobs, jobCancels, contexts, started, stopped := map[], map[], [], false, false;
    }

    /** Adds or replaces a job; a running predecessor is cancelled first. */
    method Register(job: Job)
      requires Valid()
      modifies this
      ensures Valid() && jobs == old(jobs)[job.name := job]
      ensures started == old(started) && stopped == old(stopped)
      ensures contexts == Retired(old(contexts), job.name) + if started then [Context(job, false)] else []
    {
      var name := job.name;
      OnlyOneToRetire(name);
      if name in jobCancels { Cancel(jobCancels[name]); }
      jobs := jobs[name := job];
      if started { StartJob(job); }
    }

    method Start()
      requires Valid()
      modifies this
      ensures Valid() && jobs == old(jobs) && started && stopped == old(stopped)
      ensures old(started) ==> contexts == old(contexts) && jobCancels == old(jobCancels)
    {
      if started { return; }
      started := true;
      var names := jobs.Keys;
      while names != {}
        invariant names <= jobs.Keys && jobs == old(jobs) && started && stopped == old(stopped)
        invariant jobCancels.Keys == jobs.Keys - names && Tracked(jobs.Keys)
        invariant forall n | n in jobs :: jobs[n].name == n
        decreases names
      {
        var name :| name in names;
        StartJob(jobs[name]);
        names := names - {name};
      }
    }

    /** Removes a running job; a job that was never started is left alone. */
    method Unregister(name: string)
      requires Valid()
      modifies this
      ensures Valid() && started == old(started) && stopped == old(stopped)
      ensures jobs == if started then old(jobs) - {name} else old(jobs)
      ensures contexts == Retired(old(contexts), name)
    {
      OnlyOneToRetire(name);
      if name in jobCancels {
        Cancel(jobCancels[name]);
        jobCancels := jobCancels - {name};
        jobs := jobs - {name};
      }
    }

    method Stop()
      requires Valid()
      modifies this`stopped
      ensures Valid() && stopped
    {
      stopped := true;
    }

    method Cancel(i: nat)
      requires i < |contexts|
      modifies this`contexts
      ensures contexts == old(contexts)[i := old(contexts)[i].(cancelled := true)]
    {
      contexts := contexts[i := contexts[i].(cancelled := true)];
    }

    method StartJob(job: Job)
      modifies this`contexts, this`jobCancels
      ensures contexts == old(contexts) + [Context(job, false)]
      ensures jobCancels == old(jobCancels)[job.name := |old(contexts)|]
    {
      jobCancels := jobCancels[job.name := |contexts|];
      contexts := contexts + [Context(job, false)];
    }

    /** After any sequence of calls on a new scheduler: a job runs, in exactly one live context,
        precisely when it is registered, Start was called and Stop was not. */
    method Replay(calls: seq<Call>)
      requires Valid() && jobs == map[] && !started && !stopped
      modifies this
      ensures Valid() && jobs == JobsAfter(calls) && started == (Call.Start in calls) && stopped == (Call.Stop in calls)
      ensures forall i | 0 <= i < |contexts| && Live(i) ::
        contexts[i].job.name in JobsAfter(calls) && contexts[i].job == JobsAfter(calls)[contexts[i].job.name]
      ensures forall i, j | 0 <= i < j < |contexts| && Live(i) && Live(j) ::
        contexts[i].job.name != contexts[j].job.name
      ensures Call.Start in calls && Call.Stop !in calls ==>
        forall n | n in JobsAfter(calls) :: exists i | 0 <= i < |contexts| ::
          Live(i) && contexts[i].job == JobsAfter(calls)[n]
      ensures Call.Start !in calls ==> contexts == []
      ensures Call.Stop in calls ==> forall i | 0 <= i < |contexts| :: !Live(i)
    {
      for k := 0 to |calls|
        invariant Valid() && jobs == JobsAfter(calls[..k])
        invariant started == (Call.Start in calls[..k]) && stopped == (Call.Stop in calls[..k])
      {
        assert calls[..k + 1] == calls[..k] + [calls[k]] && calls[..k + 1][..k] == calls[..k];
        match calls[k]
        case Register(job) => Register(job);
        case Start => Start();
        case Unregister(name) => Unregister(name);
        case Stop => Stop();
      }
      assert calls[..|calls|] == calls;
      RunningJobs();
    }
  }

  // ---------- What the callers asked for ----------

  predicate Mentions(calls: seq<Call>, name: string) {
    Unregister(name) in calls || Registers(calls, name)
  }

  predicate Registers(calls: seq<Call>, name: string) {
    exists k | 0 <= k < |calls| :: calls[k].Register? && calls[k].job.name == name
  }

  lemma {:induction false} OneMoreCall(calls: seq<Call>, name: string)
    requires calls != []
    ensures var n := |calls| - 1;
      Registers(calls, name) <==> Registers(calls[..n], name) || (calls[n].Register? && calls[n].job.name == name)
    ensures var n := |calls| - 1; Mentions(calls, name) <==> Mentions(calls[..n], name) || Mentions([calls[n]], name)
  {
    var n := |calls| - 1;
    if k :| 0 <= k < n && calls[..n][k].Register? && calls[..n][k].job.name == name {
      assert calls[k].job.name == name;
    }
    if k :| 0 <= k < |calls| && calls[k].Register? && calls[k].job.name == name {
      if k < n { assert calls[..n][k].job.name == name; } else { assert [calls[n]][0].job.name == name; }
    }
    assert calls == calls[..n] + [calls[n]];
  }

  lemma {:induction false} BeforeStart(calls: seq<Call>, name: string)
    requires Start !in calls
    ensures name in JobsAfter(calls) <==> Registers(calls, name)
    ensures name in Wanted(calls) ==> name in JobsAfter(calls) && JobsAfter(calls)[name] == Wanted(calls)[name]
    decreases |calls|
  {
    if calls != [] {
      BeforeStart(calls[..|calls| - 1], name);
      OneMoreCall(calls, name);
    }
  }

  /** A removed job stays registered exactly when it was removed before Start and never mentioned
      afterwards; no job that callers want is ever missing. */
  lemma {:induction false} RemovedJobStaysIff(early: seq<Call>, late: seq<Call>, name: string)
    requires Start !in early && (late == [] || late[0] == Start)
    ensures name in Wanted(early + late) ==>
      name in JobsAfter(early + late) && JobsAfter(early + late)[name] == Wanted(early + late)[name]
    ensures name in JobsAfter(early + late) && name !in Wanted(early + late) <==>
      Registers(early, name) && name !in Wanted(early) && !Mentions(late, name)
    decreases |late|
  {
    if late == [] {
      assert early + late == early;
      BeforeStart(early, name);
    } else {
      var n := |late| - 1;
      var all := early + late;
      assert all[..|all| - 1] == early + late[..n] && all[|all| - 1] == late[n];
      RemovedJobStaysIff(early, late[..n], name);
      OneMoreCall(late, name);
      if n > 0 { assert late[..n][0] == Start && Start in all[..|all| - 1]; }
      assert late[n].Unregister? ==> n > 0;
    }
  }
}
