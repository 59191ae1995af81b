/** The distributed manager's operations, written as the code performs them: one store
    statement or driver call at a time, with other runners free to act in every gap.
    Each operation is shown to be a run of the instance protocol, so the safety results for
    runs hold for the operations under any interference.
  */
module DistributedRunner {
  import opened InstanceProtocol
  import Safety = InstanceSafety

  /** Steps that only the goroutine of `id` takes. */
  predicate GoroutineStep(step: Step, id: Id) {
    match step
    case StoreRow(i) => i == id
    case StoreFails(i, _) => i == id
    case ConnectFails(i, _) => i == id
    case ConnectSucceeds(i) => i == id
    case HibernateSkipped(i) => i == id
    case HibernateClaim(i) => i == id
    case DriverHibernates(i) => i == id
    case DriverRefuses(i) => i == id
    case HibernateSettles(i) => i == id
    case GoroutineDies(i) => i == id
    case _ => false
  }

  /** Steps that only the owner of cleanup job `job` takes. */
  predicate JobStep(step: Step, job: JobId) {
    match step
    case StoreFails(_, j) => j == job
    case ConnectFails(_, j) => j == job
    case ClaimRows(j, _, _) => j == job
    case Target(j, _) => j == job
    case DriverReturns(j, _) => j == job
    case RemoveRow(j, _) => j == job
    case JobEnds(j) => j == job
    case _ => false
  }

  predicate LeavesGoroutine(env: Run, id: Id) {
    forall k | 0 <= k < |env| :: !GoroutineStep(env[k], id)
  }

  predicate LeavesJob(env: Run, job: JobId) {
    forall k | 0 <= k < |env| :: !JobStep(env[k], job)
  }

  /** A step of this request, or one that orders an instance for it. */
  predicate RequestStep(step: Step, request: RequestId) {
    match step
    case CreateVm(_, mode) => mode == OnDemand(request)
    case HotClaim(_, r) => r == request
    case ReadRow(_, r) => r == request
    case EditCopy(r, _) => r == request
    case WriteCopy(r) => r == request
    case DropCopy(r) => r == request
    case _ => false
  }

  predicate LeavesRequest(env: Run, request: RequestId) {
    forall k | 0 <= k < |env| :: !RequestStep(env[k], request)
  }

  /** Whatever is on its way to this request is left alone. */
  ghost predicate LeavesOrders(s: State, env: Run, request: RequestId) {
    forall id | id in s.pending && s.pending[id] == OnDemand(request) :: LeavesGoroutine(env, id)
  }

  ghost predicate KeepsRequest(s: State, t: State, request: RequestId) {
    && (request in t.copies <==> request in s.copies)
    && (request in s.copies ==> t.copies[request] == s.copies[request])
    && (forall id | id in t.pending && t.pending[id] == OnDemand(request) ::
          id in s.pending && s.pending[id] == OnDemand(request))
  }

  lemma {:induction false} ForeignRequestStep(s: State, step: Step, request: RequestId)
    requires Enabled(s, step) && LeavesRequest([step], request) && LeavesOrders(s, [step], request)
    ensures KeepsRequest(s, Apply(s, step), request)
  {
    assert !RequestStep([step][0], request);
    if step.StoreRow? { assert GoroutineStep([step][0], step.id) && s.pending[step.id] != OnDemand(request); }
  }

  lemma {:induction false} ForeignToRequest(s: State, env: Run, request: RequestId)
    requires Valid(s, env) && LeavesRequest(env, request) && LeavesOrders(s, env, request)
    ensures KeepsRequest(s, Exec(s, env), request)
    decreases |env|
  {
    if env != [] {
      forall id | LeavesGoroutine(env, id) ensures LeavesGoroutine([env[0]], id) && LeavesGoroutine(env[1..], id) {}
      assert LeavesRequest([env[0]], request) && LeavesRequest(env[1..], request);
      ForeignRequestStep(s, env[0], request);
      ForeignToRequest(Apply(s, env[0]), env[1..], request);
    }
  }

  predicate KeepsGoroutine(s: State, t: State, id: Id) {
    && (id in t.goroutines <==> id in s.goroutines)
    && (id in s.goroutines ==> t.goroutines[id] == s.goroutines[id])
    && (id in s.born ==> (id in t.pending <==> id in s.pending))
    && (id in s.born && id in s.pending ==> t.pending[id] == s.pending[id])
  }

  predicate KeepsJob(s: State, t: State, job: JobId) {
    (job in t.jobs <==> job in s.jobs) && (job in s.jobs ==> t.jobs[job] == s.jobs[job])
  }

  lemma {:induction false} ForeignSetupStep(s: State, step: Step, id: Id)
    requires Enabled(s, step) && !GoroutineStep(step, id) && SetsUp(step)
    ensures KeepsGoroutine(s, Apply(s, step), id)
  {
  }

  lemma {:induction false} ForeignOtherStep(s: State, step: Step, id: Id)
    requires Enabled(s, step) && !GoroutineStep(step, id) && !SetsUp(step)
    ensures KeepsGoroutine(s, Apply(s, step), id)
  {
  }

  lemma {:induction false} ForeignGoroutineStep(s: State, step: Step, id: Id)
    requires Enabled(s, step) && !GoroutineStep(step, id)
    ensures KeepsGoroutine(s, Apply(s, step), id)
  {
    if SetsUp(step) { ForeignSetupStep(s, step, id); } else { ForeignOtherStep(s, step, id); }
  }

  lemma {:induction false} ForeignToGoroutine(s: State, env: Run, id: Id)
    requires Valid(s, env) && LeavesGoroutine(env, id)
    ensures KeepsGoroutine(s, Exec(s, env), id)
    decreases |env|
  {
    if env != [] {
      assert !GoroutineStep(env[0], id);
      ForeignGoroutineStep(s, env[0], id);
      GrowsStep(s, env[0]);
      ForeignToGoroutine(Apply(s, env[0]), env[1..], id);
    }
  }

  lemma {:induction false} ForeignToJob(s: State, env: Run, job: JobId)
    requires Valid(s, env) && LeavesJob(env, job)
    ensures KeepsJob(s, Exec(s, env), job)
    decreases |env|
  {
    if env != [] {
      assert !JobStep(env[0], job);
      assert KeepsJob(s, Apply(s, env[0]), job);
      ForeignToJob(Apply(s, env[0]), env[1..], job);
    }
  }

  /** An id the cloud has not given out and a job nobody started. */
  predicate Unused(s: State, id: Id, job: JobId) {
    id !in s.born && job !in s.jobs
  }

  /** A request that holds no row and waits for none. */
  predicate EmptyHanded(s: State, request: RequestId) {
    request !in s.copies && forall id | id in s.pending :: s.pending[id] != OnDemand(request)
  }

  /** The others do not touch the job, nor does the cloud give the id to them. */
  predicate Apart(env: Run, id: Id, job: JobId) {
    LeavesGoroutine(env, id) && LeavesJob(env, job) && forall k | 0 <= k < |env| && env[k].CreateVm? :: env[k].id != id
  }

  lemma {:induction false} ApartRun(s: State, env: Run, id: Id, job: JobId)
    requires Valid(s, env) && Apart(env, id, job)
    ensures Unused(s, id, job) ==> Unused(Exec(s, env), id, job)
    decreases |env|
  {
    if env != [] {
      assert !JobStep(env[0], job);
      assert Unused(s, id, job) ==> Unused(Apply(s, env[0]), id, job);
      ApartRun(Apply(s, env[0]), env[1..], id, job);
    }
  }

  /** History only grows. */
  predicate Grows(s: State, t: State) {
    s.stamp == t.stamp && s.born <= t.born && s.handed <= t.handed && s.owned <= t.owned
  }

  lemma {:induction false} GrowsSettingUp(s: State, step: Step)
    requires Enabled(s, step) && (SetsUp(step) || Hibernates(step))
    ensures Grows(s, Apply(s, step))
  {
  }

  lemma {:induction false} GrowsOtherwise(s: State, step: Step)
    requires Enabled(s, step) && !SetsUp(step) && !Hibernates(step)
    ensures Grows(s, Apply(s, step))
  {
  }

  lemma {:induction false} GrowsStep(s: State, step: Step)
    requires Enabled(s, step)
    ensures Grows(s, Apply(s, step))
  {
    if SetsUp(step) || Hibernates(step) { GrowsSettingUp(s, step); } else { GrowsOtherwise(s, step); }
  }

  lemma {:induction false} GrowsRun(s: State, env: Run)
    requires Valid(s, env)
    ensures Grows(s, Exec(s, env))
    decreases |env|
  {
    if env != [] {
      GrowsStep(s, env[0]);
      GrowsRun(Apply(s, env[0]), env[1..]);
    }
  }

  predicate Quiet(env: seq<Run>) {
    forall k | 0 <= k < |env| :: env[k] == []
  }

  /** What the other runners do in each gap of an operation that owns `id` and `job`. */
  predicate Foreign(env: seq<Run>, id: Id, job: JobId) {
    forall k | 0 <= k < |env| :: LeavesGoroutine(env[k], id) && LeavesJob(env[k], job)
  }

  class Cluster {
    var s: State
    ghost var run: Run

    ghost predicate Faithful()
      reads this
    {
      Valid(Init(Provisioning), run) && Exec(Init(Provisioning), run) == s && s.stamp == Provisioning
    }

    constructor ()
      ensures Faithful() && s == Init(Provisioning)
    {
      s, run := Init(Provisioning), [];
    }

    /** One store statement or one driver call. */
    method Do(step: Step)
      requires Faithful() && Enabled(s, step)
      modifies this
      ensures Faithful() && s == Apply(old(s), step) && run == old(run) + [step]
    {
      ValidAppend(Init(Provisioning), run, step);
      s := Apply(s, step);
      run := run + [step];
    }

    /** A gap: the other runners take the steps they can. What `id` and `job` own is safe from
        interference that leaves them alone. */
    method Gap(env: Run, ghost id: Id, ghost job: JobId)
      requires Faithful()
      modifies this
      ensures Faithful() && old(run) <= run && Grows(old(s), s)
      ensures s == if Valid(old(s), env) then Exec(old(s), env) else old(s)
      ensures LeavesGoroutine(env, id) ==> KeepsGoroutine(old(s), s, id)
      ensures LeavesJob(env, job) ==> KeepsJob(old(s), s, job)
      ensures Apart(env, id, job) && Unused(old(s), id, job) ==> Unused(s, id, job)
    {
      if Valid(s, env) {
        if Apart(env, id, job) { ApartRun(s, env, id, job); }
        GrowsRun(s, env);
        if LeavesGoroutine(env, id) { ForeignToGoroutine(s, env, id); }
        if LeavesJob(env, job) { ForeignToJob(s, env, job); }
        ValidConcat(Init(Provisioning), run, env);
        s := Exec(s, env);
        run := run + env;
      }
    }

    /** A gap in an operation of this request. */
    method Pause(env: Run, ghost id: Id, ghost job: JobId, ghost request: RequestId)
      requires Faithful()
      modifies this
      ensures Faithful() && old(run) <= run && Grows(old(s), s)
      ensures LeavesRequest(env, request) && LeavesOrders(old(s), env, request) ==> KeepsRequest(old(s), s, request)
      ensures env == [] ==> s == old(s)
      ensures LeavesGoroutine(env, id) ==> KeepsGoroutine(old(s), s, id)
      ensures LeavesJob(env, job) ==> KeepsJob(old(s), s, job)
      ensures Apart(env, id, job) && Unused(old(s), id, job) ==> Unused(s, id, job)
    {
      if Valid(s, env) && LeavesRequest(env, request) && LeavesOrders(s, env, request) {
        ForeignToRequest(s, env, request);
      }
      Gap(env, id, job);
    }

    /** One call of the driver: it hibernates the VM, or refuses and is asked again, or has been
        asked often enough. */
    method AskOnce(id: Id, answer: bool, env: Run)
      requires Faithful() && id in s.goroutines && s.goroutines[id].Sleeping? && LeavesGoroutine(env, id)
      modifies this
      ensures Faithful() && old(run) <= run && id in s.goroutines
      ensures
        var phase := old(s).goroutines[id];
        s.goroutines[id] ==
          if answer then Settling(phase.row.(state := Created, hibernated := true))
          else if phase.attempt < MAX_HIBERNATE_ATTEMPTS then phase.(attempt := phase.attempt + 1)
          else Settling(phase.row.(state := Created))
      ensures env == [] ==> s == old(s).(
        goroutines := old(s).goroutines[id := s.goroutines[id]],
        asleep := if answer then old(s).asleep + {id} else old(s).asleep)
    {
      Gap(env, id, 0);
      if answer { Do(DriverHibernates(id)); } else { Do(DriverRefuses(id)); }
    }

    /** Asks the driver up to three times, with a gap before each attempt. */
    method AskDriver(id: Id, answers: seq<bool>, env: seq<Run>)
      requires Faithful() && id in s.goroutines && s.goroutines[id].Sleeping? && s.goroutines[id].attempt == 1
      requires |answers| == |env| == 3 && Foreign(env, id, 0)
      modifies this
      ensures Faithful() && old(run) <= run && id in s.goroutines
      ensures
        var row := old(s).goroutines[id].row.(state := Created);
        s.goroutines[id] == Settling(if true in answers then row.(hibernated := true) else row)
      ensures Quiet(env) ==> s == old(s).(
        goroutines := old(s).goroutines[id := s.goroutines[id]],
        asleep := if true in answers then old(s).asleep + {id} else old(s).asleep)
    {
      var attempt := 1;
      while attempt <= MAX_HIBERNATE_ATTEMPTS
        invariant 1 <= attempt <= MAX_HIBERNATE_ATTEMPTS + 1
        invariant Faithful() && old(run) <= run && id in s.goroutines
        invariant s.goroutines[id] ==
          if attempt <= MAX_HIBERNATE_ATTEMPTS then Sleeping(old(s).goroutines[id].row, attempt)
          else Settling(old(s).goroutines[id].row.(state := Created))
        invariant true !in answers[..attempt - 1]
        invariant Quiet(env) ==> s == old(s).(goroutines := old(s).goroutines[id := s.goroutines[id]])
      {
        AskOnce(id, answers[attempt - 1], env[attempt - 1]);
        if answers[attempt - 1] { return; }
        attempt := attempt + 1;
      }
      assert answers[..attempt - 1] == answers;
    }

    /** Claims the instance for hibernation, asks the driver, and writes the row back as created,
        marked hibernated when the driver agreed. */
    method Hibernate(id: Id, shouldHibernate: bool, answers: seq<bool>, env: seq<Run>)
      requires Faithful() && id in s.goroutines && s.goroutines[id].Ready?
      requires |answers| == MAX_HIBERNATE_ATTEMPTS && |env| == MAX_HIBERNATE_ATTEMPTS + 1
      requires Foreign(env, id, 0)
      modifies this
      ensures Faithful() && old(run) <= run && id !in s.goroutines
      ensures Quiet(env) && shouldHibernate && id in old(s).rows && old(s).rows[id].state == Created ==>
          var row := old(s).rows[id];
          && s.goroutines == old(s).goroutines - {id} && s.live == old(s).live
          && s.asleep == (if true in answers then old(s).asleep + {id} else old(s).asleep)
          && s.rows == old(s).rows[id := row.(hibernated := row.hibernated || true in answers, updated := old(s).now)]
      ensures !(shouldHibernate && id in old(s).rows && old(s).rows[id].state == Created) ==>
        s == old(s).(goroutines := old(s).goroutines - {id})
    {
      if !shouldHibernate || id !in s.rows || s.rows[id].state != Created {
        Do(HibernateSkipped(id));
        return;
      }
      Do(HibernateClaim(id));
      SleepAndSettle(id, answers, env);
    }

    /** After the claim: asks the driver and writes the outcome back. */
    method SleepAndSettle(id: Id, answers: seq<bool>, env: seq<Run>)
      requires Faithful() && id in s.goroutines && s.goroutines[id].Sleeping? && s.goroutines[id].attempt == 1
      requires |answers| == MAX_HIBERNATE_ATTEMPTS && |env| == MAX_HIBERNATE_ATTEMPTS + 1 && Foreign(env, id, 0)
      modifies this
      ensures Faithful() && old(run) <= run && id !in s.goroutines
      ensures
        var row := old(s).goroutines[id].row.(state := Created);
        Quiet(env) ==> s == old(s).(
          goroutines := old(s).goroutines - {id},
          rows := Write(old(s).rows, id, if true in answers then row.(hibernated := true) else row),
          asleep := if true in answers then old(s).asleep + {id} else old(s).asleep)
    {
      AskDriver(id, answers, env[..MAX_HIBERNATE_ATTEMPTS]);
      ghost var asked := s;
      Gap(env[MAX_HIBERNATE_ATTEMPTS], id, 0);
      Do(HibernateSettles(id));
      assert Quiet(env) ==> asked.goroutines - {id} == old(s).goroutines - {id};
    }

    /** The driver works through the batch one instance at a time and reports the failures. */
    method DriverDestroys(job: JobId, failed: set<Id>)
      requires Faithful() && job in s.jobs && s.jobs[job].Collecting?
      modifies this
      ensures Faithful() && old(run) <= run
      ensures
        var gone := old(s).jobs[job].batch - failed;
        s == old(s).(live := old(s).live - gone, jobs := old(s).jobs[job := Removing(gone)])
    {
      ghost var gone := s.jobs[job].batch - failed;
      var doomed := s.jobs[job].batch - failed;
      while doomed != {}
        invariant Faithful() && old(run) <= run && doomed <= gone
        invariant s == old(s).(live := old(s).live - (gone - doomed))
        decreases doomed
      {
        var id :| id in doomed;
        ghost var before := doomed;
        if id in s.live { Do(VmGone(id)); }
        doomed := doomed - {id};
        assert gone - doomed == (gone - before) + {id};
      }
      assert gone - {} == gone;
      Do(DriverReturns(job, failed));
    }

    /** The row could not be stored: the driver is asked to destroy the VM, whatever it answers. */
    method Compensate(id: Id, destroys: bool, job: JobId)
      requires Faithful() && id in s.pending && job !in s.jobs
      modifies this
      ensures Faithful() && old(run) <= run
      ensures s == old(s).(pending := old(s).pending - {id},
                           live := if destroys then old(s).live - {id} else old(s).live)
    {
      Do(StoreFails(id, job));
      assert s.jobs[job].batch == {id};
      ghost var gone := {id} - if destroys then {} else {id};
      assert gone == if destroys then {id} else {};
      DriverDestroys(job, if destroys then {} else {id});
      assert s.live == old(s).live - gone;
      assert old(s).live - {} == old(s).live;
      Do(JobEnds(job));
      assert s.jobs == old(s).jobs;
    }

    /** Creates the VM and stores its row; a row that cannot be stored is compensated by a
        destroy whose result is ignored: when the driver fails too, the VM stays without a row. */
    method SetupInstance(id: Id, mode: Mode, stores: bool, destroys: bool, job: JobId, env: Run) returns (ok: bool)
      requires Faithful() && id !in s.born && job !in s.jobs
      requires LeavesGoroutine(env, id) && LeavesJob(env, job)
      requires mode.OnDemand? ==> EmptyHanded(s, mode.request) && LeavesRequest(env, mode.request)
      modifies this
      ensures Faithful() && old(run) <= run && job !in s.jobs && ok == stores
      ensures ok ==> id in s.rows && id in s.recorded
      ensures ok && mode == Warm ==> id in s.goroutines && s.goroutines[id] == Connecting(s.rows[id])
      ensures ok && mode.OnDemand? ==>
        && id in s.owned && s.rows[id].state == InUse
        && mode.request in s.copies && s.copies[mode.request] == Copy(id, s.rows[id])
      ensures !ok && destroys ==> id !in s.live
      ensures !ok && env == [] ==>
        && s.rows == old(s).rows && s.recorded == old(s).recorded && s.jobs == old(s).jobs
        && s.live == old(s).live + (if destroys then {} else {id}) && (id in s.live <==> !destroys)
      ensures ok && env == [] ==>
        && s.rows == old(s).rows[id := Row(if mode == Warm then Provisioning else InUse, old(s).now, false, old(s).now)]
        && s.live == old(s).live + {id} && s.now == old(s).now
    {
      assert id !in s.live && id !in s.pending by { Safety.SafeRun(Init(Provisioning), run); }
      Do(CreateVm(id, mode));
      if mode.OnDemand? { Pause(env, id, job, mode.request); } else { Gap(env, id, job); }
      if !stores {
        Compensate(id, destroys, job);
        return false;
      }
      Do(StoreRow(id));
      return true;
    }

    /** Deletes the rows of what the driver destroyed and closes the job. */
    method ForgetDestroyed(job: JobId)
      requires Faithful() && job in s.jobs && s.jobs[job].Removing?
      modifies this
      ensures Faithful() && old(run) <= run
      ensures s == old(s).(rows := old(s).rows - old(s).jobs[job].gone, jobs := old(s).jobs - {job})
    {
      ghost var gone := s.jobs[job].gone;
      var left := s.jobs[job].gone;
      while left != {}
        invariant Faithful() && old(run) <= run && left <= gone
        invariant s == old(s).(rows := old(s).rows - (gone - left))
        decreases left
      {
        var id :| id in left;
        ghost var before := left;
        Do(RemoveRow(job, id));
        left := left - {id};
        assert old(s).rows - (gone - left) == (old(s).rows - (gone - before)) - {id};
      }
      assert gone - {} == gone;
      Do(JobEnds(job));
    }

    /** Hands the job's batch to the driver and removes the rows of what the driver destroyed;
        a failed instance keeps its row for the next sweep. */
    method DestroyAndForget(job: JobId, failed: set<Id>, env: Run, ghost request: RequestId)
      requires Faithful() && job in s.jobs && s.jobs[job].Collecting? && LeavesJob(env, job)
      modifies this
      ensures Faithful() && old(run) <= run && job !in s.jobs && Grows(old(s), s)
      ensures EmptyHanded(old(s), request) && LeavesRequest(env, request) ==> EmptyHanded(s, request)
      ensures env == [] ==>
        var gone := old(s).jobs[job].batch - failed;
        s == old(s).(rows := old(s).rows - gone, live := old(s).live - gone, jobs := old(s).jobs - {job})
    {
      DriverDestroys(job, failed);
      Pause(env, "", job, request);
      ForgetDestroyed(job);
      assert env == [] ==> s.jobs == old(s).jobs - {job};
    }

    /** The goroutine: waits for the VM, marks it created and hibernates it, or has it destroyed
        when it never answers. */
    method ConnectAndHibernate(id: Id, connects: bool, shouldHibernate: bool, answers: seq<bool>,
                               failed: set<Id>, job: JobId, env: seq<Run>)
      requires Faithful() && id in s.goroutines && s.goroutines[id].Connecting? && job !in s.jobs
      requires |answers| == MAX_HIBERNATE_ATTEMPTS && |env| == MAX_HIBERNATE_ATTEMPTS + 2
      requires Foreign(env, id, job) && Foreign(env, id, 0)
      modifies this
      ensures Faithful() && old(run) <= run && id !in s.goroutines
      ensures Quiet(env) && connects && id in old(s).rows ==>
        && s.rows == old(s).rows[id := old(s).goroutines[id].row.(state := Created,
             hibernated := old(s).goroutines[id].row.hibernated || (shouldHibernate && true in answers),
             updated := if shouldHibernate then old(s).now else old(s).goroutines[id].row.updated)]
        && s.live == old(s).live
      ensures !connects ==>
        var gone := {id} - failed;
        s.rows == old(s).rows - gone && s.live == old(s).live - gone && job !in s.jobs
    {
      if !connects {
        Do(ConnectFails(id, job));
        DestroyAndForget(job, failed, [], 0);
        return;
      }
      Do(ConnectSucceeds(id));
      assert id in old(s).rows ==> s.rows == old(s).rows[id := old(s).goroutines[id].row.(state := Created)];
      assert Quiet(env) ==> env[0] == [] && Quiet(env[1..]);
      Gap(env[0], id, job);
      Hibernate(id, shouldHibernate, answers, env[1..]);
    }

    /** Seeds one warm instance. */
    method SetupInstanceWithHibernate(id: Id, stores: bool, destroys: bool, connects: bool, shouldHibernate: bool,
                                      answers: seq<bool>, failed: set<Id>, job: JobId, env: seq<Run>) returns (ok: bool)
      requires Faithful() && id !in s.born && job !in s.jobs
      requires |answers| == MAX_HIBERNATE_ATTEMPTS && |env| == MAX_HIBERNATE_ATTEMPTS + 4
      requires Foreign(env, id, job) && Foreign(env, id, 0)
      modifies this
      ensures Faithful() && old(run) <= run && ok == stores && (ok ==> id !in s.goroutines)
      ensures Quiet(env) && !stores ==>
        s.rows == old(s).rows && s.live == old(s).live + (if destroys then {} else {id})
      ensures Quiet(env) && stores && connects ==>
        && s.rows == old(s).rows[id := Row(Created, old(s).now, shouldHibernate && true in answers, old(s).now)]
        && s.live == old(s).live + {id}
      ensures Quiet(env) && stores && !connects && id in failed ==>
        && s.rows == old(s).rows[id := Row(Provisioning, old(s).now, false, old(s).now)]
        && s.live == old(s).live + {id}
      ensures Quiet(env) && stores && !connects && id !in failed ==>
        s.rows == old(s).rows - {id} && s.live == old(s).live - {id}
    {
      assert Quiet(env) ==> env[0] == [] && env[1] == [] && Quiet(env[2..]);
      ok := SetupInstance(id, Warm, stores, destroys, job, env[0]);
      if !ok { return; }
      Gap(env[1], id, job);
      ConnectAndHibernate(id, connects, shouldHibernate, answers, failed, job, env[2..]);
    }

    /** Claims one created instance of a set for a request, if there is one, and writes the request's
        copy back. The other runners leave `spare` and `job` alone. */
    method ClaimOneHot(matching: set<Id>, request: RequestId, env: Run, ghost spare: Id, ghost job: JobId)
      returns (claimed: seq<Id>)
      requires Faithful() && Apart(env, spare, job) && EmptyHanded(s, request) && LeavesRequest(env, request)
      modifies this
      ensures Faithful() && old(run) <= run && |claimed| <= 1 && Grows(old(s), s)
      ensures Unused(old(s), spare, job) ==> Unused(s, spare, job)
      ensures claimed == [] ==> s == old(s) && forall id | id in matching && id in s.rows :: s.rows[id].state != Created
      ensures claimed != [] ==> claimed[0] in matching && claimed[0] in s.handed && claimed[0] !in old(s).handed
      ensures claimed != [] ==> claimed[0] in old(s).rows && old(s).rows[claimed[0]].state == Created
      ensures claimed != [] ==> request in s.copies && s.copies[request].id == claimed[0]
      ensures claimed != [] && env == [] ==> s.rows == HandedOut(old(s), claimed[0])
    {
      var created := set id | id in matching && id in s.rows && s.rows[id].state == Created;
      if created == {} {
        assert forall id | id in matching && id in s.rows :: s.rows[id].state == Created ==> id in created;
        return [];
      }
      var id :| id in created;
      assert id !in s.handed by { Safety.SafeRun(Init(Provisioning), run); }
      Do(HotClaim(id, request));
      Pause(env, spare, job, request);
      Do(WriteCopy(request));
      return [id];
    }

    /** Tries the candidate variants in priority order and claims one created instance that the
        first serving variant selects. `variants[k]` is what the k-th query matches. */
    method ClaimHot(variants: seq<set<Id>>, request: RequestId, env: seq<Run>, ghost spare: Id, ghost job: JobId)
      returns (claimed: seq<Id>, variant: nat)
      requires Faithful() && EmptyHanded(s, request) && |env| == |variants| + 1
      requires forall k | 0 <= k < |env| :: Apart(env[k], spare, job) && LeavesRequest(env[k], request)
      modifies this
      ensures Faithful() && old(run) <= run && |claimed| <= 1 && Grows(old(s), s)
      ensures Unused(old(s), spare, job) ==> Unused(s, spare, job)
      ensures claimed != [] ==> variant < |variants| && claimed[0] in variants[variant]
      ensures claimed != [] ==> claimed[0] in s.handed && claimed[0] !in old(s).handed
      ensures claimed == [] ==> EmptyHanded(s, request)
      ensures claimed != [] ==> request in s.copies && s.copies[request].id == claimed[0]
      ensures Quiet(env) && claimed != [] ==>
        && claimed[0] in old(s).rows && old(s).rows[claimed[0]].state == Created
        && s.rows == HandedOut(old(s), claimed[0])
      ensures Quiet(env) ==> NoneCreated(old(s), if claimed != [] then variants[..variant] else variants)
      ensures Quiet(env) && claimed == [] ==> s == old(s)
    {
      variant := 0;
      while variant < |variants|
        invariant 0 <= variant <= |variants|
        invariant Faithful() && old(run) <= run && Grows(old(s), s) && EmptyHanded(s, request)
        invariant Unused(old(s), spare, job) ==> Unused(s, spare, job)
        invariant Quiet(env) ==> s == old(s)
        invariant Quiet(env) ==> NoneCreated(s, variants[..variant])
      {
        assert Quiet(env) ==> env[variant] == [];
        Pause(env[variant], spare, job, request);
        claimed := ClaimOneHot(variants[variant], request, env[|variants|], spare, job);
        if claimed != [] { return claimed, variant; }
        assert variants[..variant + 1] == variants[..variant] + [variants[variant]];
        variant := variant + 1;
      }
      assert variants[..variant] == variants;
      return [], variant;
    }

    /** Takes a hot instance when some matching variant has one and creates one otherwise, under an
        id the cloud has not used before. The request ends up holding the row of what it got. */
    method ProvisionFromPool(variants: seq<set<Id>>, request: RequestId, spare: Id, stores: bool, destroys: bool,
                             job: JobId, env: seq<Run>)
      returns (instance: seq<Id>, warmed: bool)
      requires Faithful() && Unused(s, spare, job) && EmptyHanded(s, request) && |env| == |variants| + 2
      requires forall k | 0 <= k < |env| :: Apart(env[k], spare, job) && LeavesRequest(env[k], request)
      modifies this
      ensures Faithful() && old(run) <= run && |instance| <= 1
      ensures warmed ==> instance != [] && instance[0] in s.handed && instance[0] !in old(s).handed
      ensures !warmed ==> instance == if stores then [spare] else []
      ensures !warmed && stores ==> spare in s.owned && spare !in old(s).owned
      ensures instance != [] ==> request in s.copies && s.copies[request].id == instance[0]
      ensures Quiet(env) ==>
        if warmed
        then
          && instance[0] in old(s).rows && old(s).rows[instance[0]].state == Created
          && s.rows == HandedOut(old(s), instance[0])
          && (exists k | 0 <= k < |variants| :: instance[0] in variants[k] && NoneCreated(old(s), variants[..k]))
        else
          && NoneCreated(old(s), variants)
          && s.rows == (if stores then old(s).rows[spare := Row(InUse, old(s).now, false, old(s).now)] else old(s).rows)
    {
      var claimed, variant := ClaimHot(variants, request, env[..|variants| + 1], spare, job);
      if claimed != [] {
        assert Quiet(env) ==> claimed[0] in variants[variant] && NoneCreated(old(s), variants[..variant]);
        return claimed, true;
      }
      assert spare !in s.owned by { Safety.SafeRun(Init(Provisioning), run); }
      assert Quiet(env) ==> env[|variants| + 1] == [];
      var ok := SetupInstance(spare, OnDemand(request), stores, destroys, job, env[|variants| + 1]);
      return if ok then [spare] else [], false;
    }

    /** Claims every matching instance, one row per statement, until none is left. Each gap can
        add rows, so the loop ends because gaps run out and every claim takes a row away. */
    method ClaimAll(matching: set<Id>, allowed: set<InstanceState>, job: JobId, env: seq<Run>)
      returns (claimed: seq<Id>)
      requires Faithful() && job !in s.jobs && Terminating !in allowed
      requires forall k | 0 <= k < |env| :: LeavesJob(env[k], job)
      modifies this
      ensures Faithful() && old(run) <= run && Claimable(s, matching, allowed) == {}
      ensures if claimed == [] then job !in s.jobs else job in s.jobs && s.jobs[job] == Collecting(Elements(claimed))
      ensures env == [] ==> Claiming(old(s), s, matching, allowed, job, claimed)
    {
      claimed := [];
      var gap := 0;
      ghost var start := s;
      ClaimingNothing(start, matching, allowed, job);
      while true
        invariant 0 <= gap <= |env| && Faithful() && old(run) <= run
        invariant if claimed == [] then job !in s.jobs
          else job in s.jobs && s.jobs[job] == Collecting(Elements(claimed))
        invariant env == [] ==> Claiming(start, s, matching, allowed, job, claimed)
        decreases |env| - gap, Claimable(s, matching, allowed)
      {
        if gap < |env| {
          Gap(env[gap], "", job);
          gap := gap + 1;
        }
        if Claimable(s, matching, allowed) == {} { break; }
        claimed := ClaimAnother(matching, allowed, job, claimed, start, env == []);
      }
    }

    /** One more claim of a batch; `quiet` when nobody interfered since `start`. */
    method ClaimAnother(matching: set<Id>, allowed: set<InstanceState>, job: JobId, claimed: seq<Id>,
                        ghost start: State, ghost quiet: bool) returns (more: seq<Id>)
      requires Faithful() && Terminating !in allowed && Claimable(s, matching, allowed) != {}
      requires if claimed == [] then job !in s.jobs else job in s.jobs && s.jobs[job] == Collecting(Elements(claimed))
      requires quiet ==> Claiming(start, s, matching, allowed, job, claimed)
      modifies this
      ensures Faithful() && old(run) <= run && more != [] && job in s.jobs && s.jobs[job] == Collecting(Elements(more))
      ensures Claimable(s, matching, allowed) < Claimable(old(s), matching, allowed)
      ensures quiet ==> Claiming(start, s, matching, allowed, job, more)
    {
      var candidates := Claimable(s, matching, allowed);
      var id :| id in candidates;
      ghost var before := s;
      ClaimOne(id, allowed, job);
      more := claimed + [id];
      assert Elements(more) == Elements(claimed) + {id};
      ClaimedOneMore(before, s, matching, allowed, id);
      if quiet { ClaimingStep(start, before, s, matching, allowed, job, claimed, id); }
    }

    /** Claims the matching rows in these states, has them destroyed and forgets what is gone. */
    method CleanMatching(matching: set<Id>, states: set<InstanceState>, failed: set<Id>, job: JobId,
                         claimGaps: seq<Run>, deleteGap: Run)
      requires Faithful() && job !in s.jobs && Terminating !in states && LeavesJob(deleteGap, job)
      requires forall k | 0 <= k < |claimGaps| :: LeavesJob(claimGaps[k], job)
      modifies this
      ensures Faithful() && old(run) <= run && job !in s.jobs
      ensures claimGaps == [] && deleteGap == [] ==>
        var found := Claimable(old(s), matching, states);
        && s.live == old(s).live - (found - failed) && s.jobs == old(s).jobs
        && s.rows == Terminated(old(s).rows, found, old(s).now) - (found - failed)
    {
      var claimed := ClaimAll(matching, states, job, claimGaps);
      ghost var found := Claimable(old(s), matching, states);
      if claimGaps == [] { NoneLeft(found, Elements(claimed)); }
      if claimed != [] {
        ghost var afterClaims := s;
        DestroyAndForget(job, failed, deleteGap, 0);
        assert claimGaps == [] && deleteGap == [] ==> s.jobs == afterClaims.jobs - {job} == old(s).jobs;
      }
    }

    /** Empties a pool: ends the matching instances of the kinds the caller asked for. */
    method CleanPool(matching: set<Id>, destroyBusy: bool, destroyFree: bool, failed: set<Id>, job: JobId,
                     claimGaps: seq<Run>, deleteGap: Run) returns (ok: bool)
      requires Faithful() && job !in s.jobs && LeavesJob(deleteGap, job)
      requires forall k | 0 <= k < |claimGaps| :: LeavesJob(claimGaps[k], job)
      modifies this
      ensures Faithful() && old(run) <= run && ok == (destroyBusy || destroyFree) && job !in s.jobs
      ensures !ok ==> s == old(s)
      ensures ok && claimGaps == [] && deleteGap == [] ==>
        var found := Claimable(old(s), matching, CleanStates(destroyBusy, destroyFree));
        && s.live == old(s).live - (found - failed) && s.jobs == old(s).jobs
        && s.rows == Terminated(old(s).rows, found, old(s).now) - (found - failed)
      ensures claimGaps == [] && deleteGap == [] ==>
        forall id | id in old(s).rows ::
          var row := old(s).rows[id];
          if id in matching && ((destroyBusy && row.state == InUse) || (destroyFree && IsFree(row.state)))
          then Ended(old(s), s, id, id in failed) else Spared(old(s), s, id)
    {
      if !destroyBusy && !destroyFree { return false; }
      CleanMatching(matching, CleanStates(destroyBusy, destroyFree), failed, job, claimGaps, deleteGap);
      if claimGaps == [] && deleteGap == [] { CleanedAsAsked(old(s), s, matching, destroyBusy, destroyFree, failed); }
      return true;
    }

    /** Drops the rows beyond twice the age limit, whatever their state. */
    method ForceDeleteLeaked(pool: set<Id>, maxAge: int)
      requires Faithful()
      modifies this
      ensures Faithful() && old(run) <= run
      ensures var leaked := Leaked(old(s), pool, maxAge);
        s == old(s).(rows := old(s).rows - leaked, forced := old(s).forced + leaked)
    {
      var leaked := Leaked(s, pool, maxAge);
      if leaked != {} {
        Do(ForceDelete(leaked, maxAge));
      } else {
        assert s.rows - leaked == s.rows && s.forced + leaked == s.forced;
      }
    }

    /** One purger pass: rows beyond twice the age limit are dropped unseen; the eligible rows
        are claimed in one statement, destroyed, and forgotten when the driver succeeded. */
    method ExecuteInstanceCleanup(pool: set<Id>, eligible: set<Id>, allowed: set<InstanceState>, maxAge: int,
                                  failed: set<Id>, job: JobId, claimGap: Run, deleteGap: Run)
      requires Faithful() && job !in s.jobs && LeavesJob(claimGap, job) && LeavesJob(deleteGap, job)
      modifies this
      ensures Faithful() && old(run) <= run && job !in s.jobs
      ensures claimGap == [] && deleteGap == [] ==>
        var leaked := Leaked(old(s), pool, maxAge);
        var found := Claimable(old(s), eligible, allowed) - leaked;
        && s.forced == old(s).forced + leaked && s.live == old(s).live - (found - failed)
        && s.rows == Terminated(old(s).rows - leaked, found, old(s).now) - (found - failed)
      ensures claimGap == [] && deleteGap == [] ==>
        forall id | id in old(s).rows ::
          var row := old(s).rows[id];
          if id in pool && 0 < maxAge && row.started < old(s).now - 2 * maxAge
          then id !in s.rows && id in s.forced && (id in s.live <==> id in old(s).live)
          else if id in eligible && row.state in allowed then Ended(old(s), s, id, id in failed)
          else Spared(old(s), s, id)
    {
      ForceDeleteLeaked(pool, maxAge);
      ghost var leaked := Leaked(old(s), pool, maxAge);
      Gap(claimGap, "", job);
      var found := Claimable(s, eligible, allowed);
      assert claimGap == [] ==> found == Claimable(old(s), eligible, allowed) - leaked;
      if found == {} {
        assert s.rows == Terminated(s.rows, {}, s.now) - ({} - failed);
        if claimGap == [] && deleteGap == [] { PassAsAsked(old(s), s, pool, eligible, allowed, maxAge, failed); }
        return;
      }
      Do(ClaimRows(job, found, allowed));
      assert s.jobs[job].batch == found;
      DestroyAndForget(job, failed, deleteGap, 0);
      if claimGap == [] && deleteGap == [] { PassAsAsked(old(s), s, pool, eligible, allowed, maxAge, failed); }
    }

    method ClaimOne(id: Id, allowed: set<InstanceState>, job: JobId)
      requires Faithful() && Open(s, job) && id in s.rows && s.rows[id].state in allowed
      modifies this
      ensures Faithful() && old(run) <= run
      ensures s == old(s).(rows := Terminated(old(s).rows, {id}, old(s).now),
                           jobs := old(s).jobs[job := Collecting(Batch(old(s), job) + {id})])
    {
      Do(ClaimRows(job, {id}, allowed));
    }

    /** Marks the instance of a stage terminating: found by its stage and in use, or described by
        the request itself. The write can fail; the destroy goes on regardless. The request is done
        with the row it read. */
    method MarkTerminating(id: Id, described: bool, written: bool, request: RequestId) returns (found: bool)
      requires Faithful() && id in s.born && request !in s.copies
      modifies this
      ensures Faithful() && old(run) <= run && found == (described || Held(old(s), id))
      ensures s == old(s).(
        rows := if found && written then Marked(old(s).rows, id, described, old(s).now) else old(s).rows)
    {
      if described {
        if written { Do(RequestTerminate(id)); }
        return true;
      }
      if !Held(s, id) { return false; }
      ReadAndEdit(id, request);
      WriteAndDrop(request, written);
      assert s.copies == old(s).copies;
      return true;
    }

    /** The request reads the row and marks its copy terminating. */
    method ReadAndEdit(id: Id, request: RequestId)
      requires Faithful() && request !in s.copies && Held(s, id)
      modifies this
      ensures Faithful() && old(run) <= run
      ensures
        var row := old(s).rows[id].(state := Terminating, updated := old(s).now);
        s == old(s).(copies := old(s).copies[request := Copy(id, row)])
    {
      Do(ReadRow(id, request));
      Do(EditCopy(request, s.rows[id].(state := Terminating, updated := s.now)));
      var row := old(s).rows[id].(state := Terminating, updated := old(s).now);
      assert s.copies == old(s).copies[request := Copy(id, row)];
    }

    /** It writes its copy back, if the store lets it, and is done with it. */
    method WriteAndDrop(request: RequestId, written: bool)
      requires Faithful() && request in s.copies
      modifies this
      ensures Faithful() && old(run) <= run
      ensures
        var copy := old(s).copies[request];
        s == old(s).(rows := if written then Write(old(s).rows, copy.id, copy.row) else old(s).rows,
                     copies := old(s).copies - {request})
    {
      if written { Do(WriteCopy(request)); }
      Do(DropCopy(request));
    }

    /** handleDestroy: one attempt. */
    method TryDestroy(id: Id, described: bool, a: DestroyAttempt, request: RequestId, job: JobId, env: Run,
                      deleteGap: Run)
      returns (ok: bool)
      requires Faithful() && id in s.born && job !in s.jobs && EmptyHanded(s, request)
      requires LeavesJob(env, job) && LeavesJob(deleteGap, job)
      requires LeavesRequest(env, request) && LeavesRequest(deleteGap, request)
      modifies this
      ensures Faithful() && old(run) <= run && job !in s.jobs && id in s.born && EmptyHanded(s, request)
      ensures env == [] && deleteGap == [] ==>
        var found := described || Held(old(s), id);
        && ok == (found && a.destroyed) && s.jobs == old(s).jobs
        && s.handed == old(s).handed && s.owned == old(s).owned
        && s.live == (if ok then old(s).live - {id} else old(s).live)
        && var marked := if found && a.written then Marked(old(s).rows, id, described, old(s).now) else old(s).rows;
           s.rows == if ok then marked - {id} else marked
    {
      var found := MarkTerminating(id, described, a.written, request);
      if !found { return false; }
      Pause(env, "", job, request);
      DestroyOne(id, a.destroyed, request, job, deleteGap);
      return a.destroyed;
    }

    /** The driver is asked to destroy one instance, and its row is removed when it did. */
    method DestroyOne(id: Id, destroyed: bool, ghost request: RequestId, job: JobId, deleteGap: Run)
      requires Faithful() && id in s.born && job !in s.jobs && EmptyHanded(s, request)
      requires LeavesJob(deleteGap, job) && LeavesRequest(deleteGap, request)
      modifies this
      ensures Faithful() && old(run) <= run && job !in s.jobs && id in s.born && EmptyHanded(s, request)
      ensures deleteGap == [] ==>
        s == if destroyed then old(s).(rows := old(s).rows - {id}, live := old(s).live - {id}) else old(s)
    {
      Do(Target(job, id));
      assert s.jobs[job].batch == {id};
      var failed: set<Id> := if destroyed then {} else {id};
      ghost var gone := s.jobs[job].batch - failed;
      assert gone == if destroyed then {id} else {};
      assert s.live - {} == s.live && s.rows - {} == s.rows && s.jobs - {job} == old(s).jobs;
      DestroyAndForget(job, failed, deleteGap, request);
    }

    /** HandleDestroy: attempts until one succeeds or time is up. Retrying helps a request that
        describes its instance. One that looks the instance up finds it only while it is in use, so
        after one attempt has marked it terminating every later attempt fails. */
    method HandleDestroy(id: Id, described: bool, attempts: seq<DestroyAttempt>, request: RequestId, job: JobId,
                         envs: seq<Run>, deleteGaps: seq<Run>)
      returns (ok: bool)
      requires Faithful() && id in s.born && job !in s.jobs && |envs| == |deleteGaps| == |attempts|
      requires EmptyHanded(s, request)
      requires forall k | 0 <= k < |envs| :: LeavesJob(envs[k], job) && LeavesJob(deleteGaps[k], job)
      requires forall k | 0 <= k < |envs| :: LeavesRequest(envs[k], request) && LeavesRequest(deleteGaps[k], request)
      modifies this
      ensures Faithful() && old(run) <= run && job !in s.jobs && EmptyHanded(s, request)
      ensures Quiet(envs) && Quiet(deleteGaps) ==>
        && (ok <==> if described then Succeeds(attempts) else Held(old(s), id) && SucceedsUnmarked(attempts))
        && s.live == (if ok then old(s).live - {id} else old(s).live)
    {
      ghost var quiet := Quiet(envs) && Quiet(deleteGaps);
      for i := 0 to |attempts|
        invariant Faithful() && old(run) <= run && job !in s.jobs && id in s.born && EmptyHanded(s, request)
        invariant quiet ==> s.live == old(s).live
        invariant quiet && described ==> !Succeeds(attempts[..i])
        invariant quiet && !described && Held(old(s), id) ==> !SucceedsUnmarked(attempts[..i])
        invariant quiet && !described ==> (Held(s, id) <==> Held(old(s), id) && Unmarked(attempts[..i]))
      {
        assert quiet ==> envs[i] == [] && deleteGaps[i] == [];
        OneMoreAttempt(attempts, i);
        ghost var before := s;
        ok := TryDestroy(id, described, attempts[i], request, job, envs[i], deleteGaps[i]);
        if ok {
          SucceededAt(attempts, i);
          return;
        }
      }
      assert attempts[..|attempts|] == attempts;
      return false;
    }
  }

  /** The rows once a created instance was handed out. */
  function HandedOut(s: State, id: Id): map<Id, Row>
    requires id in s.rows
  {
    s.rows[id := s.rows[id].(state := InUse, started := s.now, updated := s.now)]
  }

  predicate NoneCreated(s: State, variants: seq<set<Id>>) {
    forall k, id | 0 <= k < |variants| && id in variants[k] && id in s.rows :: s.rows[id].state != Created
  }

  /** One attempt: whether the terminating write went through and whether the driver destroyed. */
  datatype DestroyAttempt = DestroyAttempt(written: bool, destroyed: bool)

  /** What looking an instance up by its stage finds. */
  predicate Held(s: State, id: Id) {
    id in s.rows && s.rows[id].state == InUse && id in s.handed + s.owned
  }

  function Marked(rows: map<Id, Row>, id: Id, described: bool, at: int): map<Id, Row> {
    if described then Write(rows, id, Row(Terminating, 0, false, at))
    else if id in rows then rows[id := rows[id].(state := Terminating, updated := at)] else rows
  }

  predicate Succeeds(attempts: seq<DestroyAttempt>) {
    exists k | 0 <= k < |attempts| :: attempts[k].destroyed
  }

  predicate Unmarked(attempts: seq<DestroyAttempt>) {
    forall k | 0 <= k < |attempts| :: !attempts[k].written
  }

  /** Some attempt succeeds before which no attempt managed to mark the row. */
  predicate SucceedsUnmarked(attempts: seq<DestroyAttempt>) {
    exists k | 0 <= k < |attempts| :: attempts[k].destroyed && Unmarked(attempts[..k])
  }

  lemma {:induction false} OneMoreAttempt(attempts: seq<DestroyAttempt>, i: nat)
    requires i < |attempts|
    ensures Succeeds(attempts[..i + 1]) <==> Succeeds(attempts[..i]) || attempts[i].destroyed
    ensures Unmarked(attempts[..i + 1]) <==> Unmarked(attempts[..i]) && !attempts[i].written
    ensures SucceedsUnmarked(attempts[..i + 1]) <==>
      SucceedsUnmarked(attempts[..i]) || (attempts[i].destroyed && Unmarked(attempts[..i]))
  {
    var x, y := attempts[..i], attempts[..i + 1];
    assert y == x + [attempts[i]];
    forall k: nat | k <= i ensures y[..k] == x[..k] {}
    if SucceedsUnmarked(x) {
      var k :| 0 <= k < |x| && x[k].destroyed && Unmarked(x[..k]);
      assert y[k].destroyed && Unmarked(y[..k]);
    }
    if Succeeds(x) {
      var k :| 0 <= k < |x| && x[k].destroyed;
      assert y[k].destroyed;
    }
  }

  lemma {:induction false} SucceededAt(attempts: seq<DestroyAttempt>, i: nat)
    requires i < |attempts|
    ensures Succeeds(attempts[..i + 1]) ==> Succeeds(attempts)
    ensures attempts[i].destroyed && Unmarked(attempts[..i]) ==> SucceedsUnmarked(attempts)
  {
    var y := attempts[..i + 1];
    if Succeeds(y) {
      var k :| 0 <= k < |y| && y[k].destroyed;
      assert attempts[k].destroyed;
    }
  }

  function Elements(ids: seq<Id>): set<Id> {
    set id | id in ids
  }

  predicate Distinct(ids: seq<Id>) {
    forall i, j | 0 <= i < j < |ids| :: ids[i] != ids[j]
  }

  function CleanStates(destroyBusy: bool, destroyFree: bool): set<InstanceState> {
    (if destroyBusy then {InUse} else {}) + (if destroyFree then {Created, Hibernating, Provisioning} else {})
  }

  function Claimable(s: State, matching: set<Id>, allowed: set<InstanceState>): set<Id> {
    set id | id in matching && id in s.rows && s.rows[id].state in allowed
  }

  /** The rows of the pool that started more than twice the age limit ago, whatever their state. */
  function Leaked(s: State, pool: set<Id>, maxAge: int): set<Id> {
    if maxAge <= 0 then {} else set id | id in pool && id in s.rows && s.rows[id].started < s.now - 2 * maxAge
  }

  /** A free instance is one no stage runs on, whether asleep, being put to sleep or not ready yet. */
  predicate IsFree(state: InstanceState) {
    state == Created || state == Hibernating || state == Provisioning
  }

  /** This row and its VM are as before. */
  predicate Spared(s: State, t: State, id: Id)
    requires id in s.rows
  {
    id in t.rows && t.rows[id] == s.rows[id] && (id in t.live <==> id in s.live)
  }

  /** This row and its VM are gone; or, when the driver failed, the VM is as before and the row waits,
      terminating, for the next sweep. */
  predicate Ended(s: State, t: State, id: Id, failed: bool)
    requires id in s.rows
  {
    if failed
    then
      && id in t.rows && t.rows[id] == s.rows[id].(state := Terminating, updated := s.now)
      && (id in t.live <==> id in s.live)
    else id !in t.rows && id !in t.live
  }

  /** Row by row, a clean-up ends the matching rows of the kinds asked for and spares all others. */
  lemma {:induction false} CleanedAsAsked(s: State, t: State, matching: set<Id>, destroyBusy: bool, destroyFree: bool,
                                          failed: set<Id>)
    requires
      var found := Claimable(s, matching, CleanStates(destroyBusy, destroyFree));
      t.live == s.live - (found - failed) && t.rows == Terminated(s.rows, found, s.now) - (found - failed)
    ensures forall id | id in s.rows ::
      var row := s.rows[id];
      if id in matching && ((destroyBusy && row.state == InUse) || (destroyFree && IsFree(row.state)))
      then Ended(s, t, id, id in failed) else Spared(s, t, id)
  {
  }

  /** Row by row, a purger pass drops what is beyond twice the age limit, ends what it claims and
      spares all others. */
  lemma {:induction false} PassAsAsked(s: State, t: State, pool: set<Id>, eligible: set<Id>,
                                       allowed: set<InstanceState>, maxAge: int, failed: set<Id>)
    requires
      var leaked := Leaked(s, pool, maxAge);
      var found := Claimable(s, eligible, allowed) - leaked;
      && t.forced == s.forced + leaked && t.live == s.live - (found - failed)
      && t.rows == Terminated(s.rows - leaked, found, s.now) - (found - failed)
    ensures forall id | id in s.rows ::
      var row := s.rows[id];
      if id in pool && 0 < maxAge && row.started < s.now - 2 * maxAge
      then id !in t.rows && id in t.forced && (id in t.live <==> id in s.live)
      else if id in eligible && row.state in allowed then Ended(s, t, id, id in failed)
      else Spared(s, t, id)
  {
  }

  /** The claimed rows are marked terminating, each claimed once, and nothing else changed. */
  ghost predicate Claiming(s: State, t: State, matching: set<Id>, allowed: set<InstanceState>, job: JobId,
                           claimed: seq<Id>) {
    && Distinct(claimed) && Elements(claimed) <= Claimable(s, matching, allowed)
    && Claimable(t, matching, allowed) == Claimable(s, matching, allowed) - Elements(claimed)
    && t == s.(rows := Terminated(s.rows, Elements(claimed), s.now), jobs := t.jobs)
    && t.jobs - {job} == s.jobs
  }

  lemma {:induction false} NoneLeft(found: set<Id>, claimed: set<Id>)
    requires claimed <= found && found - claimed == {}
    ensures claimed == found
  {
    forall id | id in found ensures id in claimed {
      assert id !in found - claimed;
    }
  }

  lemma {:induction false} ClaimingNothing(s: State, matching: set<Id>, allowed: set<InstanceState>, job: JobId)
    requires job !in s.jobs
    ensures Claiming(s, s, matching, allowed, job, [])
  {
    assert s.rows == Terminated(s.rows, Elements([]), s.now);
    assert s.jobs - {job} == s.jobs;
  }

  lemma {:induction false} ClaimingStep(s: State, t: State, u: State, matching: set<Id>, allowed: set<InstanceState>,
                                        job: JobId, claimed: seq<Id>, id: Id)
    requires Terminating !in allowed && Claiming(s, t, matching, allowed, job, claimed)
    requires id in Claimable(t, matching, allowed)
    requires u == t.(rows := Terminated(t.rows, {id}, t.now), jobs := u.jobs) && u.jobs - {job} == t.jobs - {job}
    ensures Claiming(s, u, matching, allowed, job, claimed + [id])
  {
    var more := claimed + [id];
    assert Elements(more) == Elements(claimed) + {id};
    assert Terminated(Terminated(s.rows, Elements(claimed), s.now), {id}, s.now)
        == Terminated(s.rows, Elements(more), s.now);
    ClaimedOneMore(t, u, matching, allowed, id);
    assert id !in Elements(claimed);
  }

  lemma {:induction false} ClaimedOneMore(s: State, t: State, matching: set<Id>, allowed: set<InstanceState>, id: Id)
    requires Terminating !in allowed && id in Claimable(s, matching, allowed) &&
      t.rows == Terminated(s.rows, {id}, s.now)
    ensures Claimable(t, matching, allowed) == Claimable(s, matching, allowed) - {id}
  {
  }
}
