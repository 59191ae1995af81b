/** The instance table that several runners share, as a step system.

    A state holds the table, the virtual machines that exist in the cloud, one program counter
    per background goroutine, the row copies that request handlers keep in memory, and the
    cleanup jobs in flight. One step is one store statement or one driver answer; a run is any
    interleaving of steps, so it covers any number of runners.
  */
module InstanceProtocol {

  type Id = string
  type JobId = nat
  type RequestId = nat

  datatype InstanceState = Provisioning | Created | InUse | Hibernating | Terminating

  /** `updated` is the time of the last claim, or what the last writer of the whole row put there. */
  datatype Row = Row(state: InstanceState, started: int, hibernated: bool, updated: int)

  /** A row as a request handler holds it. Updates write the whole row back. */
  datatype Copy = Copy(id: Id, row: Row)

  /** Warm instances get a background goroutine; on-demand ones belong to the request. */
  datatype Mode = Warm | OnDemand(request: RequestId)

  /** Program counter of the goroutine that setupInstanceWithHibernate starts.
      Connecting: waiting for the VM to answer. Ready: "created" written, hibernation not claimed.
      Sleeping: hibernation claimed, driver being asked. Settling: last write outstanding. */
  datatype Phase =
    | Connecting(row: Row)
    | Ready
    | Sleeping(row: Row, attempt: nat)
    | Settling(row: Row)

  /** A cleanup job claims or targets instances, hears from the driver, then removes rows. */
  datatype Job = Collecting(batch: set<Id>) | Removing(gone: set<Id>)

  const MAX_HIBERNATE_ATTEMPTS: nat := 3

  datatype State = State(
    stamp: InstanceState,       // the state drivers put on a newly created instance
    now: int,
    rows: map<Id, Row>,
    live: set<Id>,              // VMs that exist
    asleep: set<Id>,            // VMs the driver hibernated and nobody woke
    born: set<Id>,              // every id a driver ever returned
    pending: map<Id, Mode>,     // VM created, row not stored yet
    goroutines: map<Id, Phase>,
    copies: map<RequestId, Copy>,   // the row each request handler holds
    jobs: map<JobId, Job>,
    recorded: set<Id>,          // every id that ever got a row
    handed: set<Id>,            // every id ever claimed from the hot pool
    owned: set<Id>,             // every id created on demand for a request
    forced: set<Id>)            // every id whose row the age limit removed

  function Init(stamp: InstanceState): State {
    State(stamp, 0, map[], {}, {}, {}, map[], map[], map[], map[], {}, {}, {}, {})
  }

  datatype Step =
    // driver.Create followed by store.Create
    | CreateVm(id: Id, mode: Mode)
    | StoreRow(id: Id)
    | StoreFails(id: Id, job: JobId)
    // background goroutine
    | ConnectFails(id: Id, job: JobId)
    | ConnectSucceeds(id: Id)
    | HibernateSkipped(id: Id)
    | HibernateClaim(id: Id)
    | DriverHibernates(id: Id)
    | DriverRefuses(id: Id)
    | HibernateSettles(id: Id)
    | GoroutineDies(id: Id)
    // request handlers
    | HotClaim(id: Id, request: RequestId)
    | ReadRow(id: Id, request: RequestId)
    | EditCopy(request: RequestId, row: Row)
    | WriteCopy(request: RequestId)
    | DropCopy(request: RequestId)
    | WakeVm(id: Id)
    | RequestTerminate(id: Id)
    // cleanup
    | ClaimRows(job: JobId, ids: set<Id>, allowed: set<InstanceState>)
    | Target(job: JobId, id: Id)
    | DriverReturns(job: JobId, failed: set<Id>)
    | RemoveRow(job: JobId, id: Id)
    | JobEnds(job: JobId)
    | ForceDelete(ids: set<Id>, maxAge: int)
    // environment
    | VmGone(id: Id)
    | Tick(seconds: nat)

  function Batch(s: State, job: JobId): set<Id> {
    if job in s.jobs && s.jobs[job].Collecting? then s.jobs[job].batch else {}
  }

  /** A job can take on instances until the driver has answered. */
  predicate Open(s: State, job: JobId) {
    job in s.jobs ==> s.jobs[job].Collecting?
  }

  predicate InPhase(s: State, id: Id, sleeping: bool) {
    id in s.goroutines &&
    (if sleeping then s.goroutines[id].Sleeping? else s.goroutines[id].Connecting?)
  }

  predicate Enabled(s: State, step: Step) {
    match step
    case CreateVm(id, mode) => id !in s.born
    case StoreRow(id) => id in s.pending && (s.pending[id].OnDemand? ==> s.pending[id].request !in s.copies)
    case StoreFails(id, job) => id in s.pending && job !in s.jobs
    case ConnectFails(id, job) => InPhase(s, id, false) && job !in s.jobs
    case ConnectSucceeds(id) => InPhase(s, id, false)
    case HibernateSkipped(id) => id in s.goroutines && s.goroutines[id].Ready?
    case HibernateClaim(id) =>
      id in s.goroutines && s.goroutines[id].Ready? && id in s.rows && s.rows[id].state == Created
    case DriverHibernates(id) => InPhase(s, id, true)
    case DriverRefuses(id) => InPhase(s, id, true)
    case HibernateSettles(id) => id in s.goroutines && s.goroutines[id].Settling?
    case GoroutineDies(id) => id in s.goroutines
    case HotClaim(id, request) => id in s.rows && s.rows[id].state == Created && request !in s.copies
    case ReadRow(id, request) => id in s.rows && id in s.handed + s.owned && request !in s.copies
    case EditCopy(request, row) =>
      // handlers never touch the start time of a row they read
      && request in s.copies && row.started == s.copies[request].row.started && row.updated <= s.now
      && (row.state == s.copies[request].row.state || row.state == Terminating)
    case WriteCopy(request) => request in s.copies
    case DropCopy(request) => request in s.copies
    case WakeVm(id) => id in s.handed + s.owned
    case RequestTerminate(id) => id in s.born
    case ClaimRows(job, ids, allowed) =>
      Open(s, job) && forall id | id in ids :: id in s.rows && s.rows[id].state in allowed
    case Target(job, id) => Open(s, job) && id in s.born
    case DriverReturns(job, failed) =>
      // driver contract: an instance that is not reported as failed no longer exists
      job in s.jobs && s.jobs[job].Collecting? && forall id | id in s.jobs[job].batch - failed :: id !in s.live
    case RemoveRow(job, id) => job in s.jobs && s.jobs[job].Removing? && id in s.jobs[job].gone
    case JobEnds(job) => job in s.jobs
    case ForceDelete(ids, maxAge) =>
      0 < maxAge && forall id | id in ids :: id in s.rows && s.rows[id].started < s.now - 2 * maxAge
    case VmGone(id) => id in s.live
    case Tick(seconds) => true
  }

  /** The steps of creating and connecting an instance ... */
  predicate SetsUp(step: Step) {
    step.CreateVm? || step.StoreRow? || step.StoreFails? || step.ConnectFails? || step.ConnectSucceeds?
  }

  /** ... and of putting it to sleep; the others are those of requests, purgers and the world. */
  predicate Hibernates(step: Step) {
    || step.HibernateSkipped? || step.HibernateClaim? || step.DriverHibernates? || step.DriverRefuses?
    || step.HibernateSettles? || step.GoroutineDies?
  }

  /** An UPDATE of a row that is no longer there changes nothing. */
  function Write(rows: map<Id, Row>, id: Id, row: Row): map<Id, Row> {
    if id in rows then rows[id := row] else rows
  }

  function Terminated(rows: map<Id, Row>, ids: set<Id>, at: int): map<Id, Row> {
    map id | id in rows :: if id in ids then rows[id].(state := Terminating, updated := at) else rows[id]
  }

  function Apply(s: State, step: Step): State
    requires Enabled(s, step)
  {
    match step
    case CreateVm(id, mode) =>
      s.(born := s.born + {id}, live := s.live + {id}, pending := s.pending[id := mode])
    case StoreRow(id) =>
      var row := Row(if s.pending[id].OnDemand? then InUse else s.stamp, s.now, false, s.now);
      var t := s.(rows := s.rows[id := row], recorded := s.recorded + {id}, pending := s.pending - {id});
      if s.pending[id].OnDemand?
      then t.(owned := s.owned + {id}, copies := s.copies[s.pending[id].request := Copy(id, row)])
      else t.(goroutines := s.goroutines[id := Connecting(row)])
    case StoreFails(id, job) =>
      s.(pending := s.pending - {id}, jobs := s.jobs[job := Collecting({id})])
    case ConnectFails(id, job) =>
      s.(goroutines := s.goroutines - {id}, jobs := s.jobs[job := Collecting({id})])
    case ConnectSucceeds(id) =>
      s.(rows := Write(s.rows, id, s.goroutines[id].row.(state := Created)),
         goroutines := s.goroutines[id := Ready])
    case HibernateSkipped(id) => s.(goroutines := s.goroutines - {id})
    case HibernateClaim(id) =>
      var row := s.rows[id].(state := Hibernating, updated := s.now);
      s.(rows := s.rows[id := row], goroutines := s.goroutines[id := Sleeping(row, 1)])
    case DriverHibernates(id) =>
      s.(asleep := s.asleep + {id},
         goroutines := s.goroutines[id := Settling(s.goroutines[id].row.(state := Created, hibernated := true))])
    case DriverRefuses(id) =>
      var phase := s.goroutines[id];
      s.(goroutines := s.goroutines[id :=
        if phase.attempt < MAX_HIBERNATE_ATTEMPTS then phase.(attempt := phase.attempt + 1)
        else Settling(phase.row.(state := Created))])
    case HibernateSettles(id) =>
      s.(rows := Write(s.rows, id, s.goroutines[id].row), goroutines := s.goroutines - {id})
    case GoroutineDies(id) => s.(goroutines := s.goroutines - {id})
    case HotClaim(id, request) =>
      var row := s.rows[id].(state := InUse, started := s.now, updated := s.now);
      s.(rows := s.rows[id := row], handed := s.handed + {id}, copies := s.copies[request := Copy(id, row)])
    case ReadRow(id, request) => s.(copies := s.copies[request := Copy(id, s.rows[id])])
    case EditCopy(request, row) => s.(copies := s.copies[request := Copy(s.copies[request].id, row)])
    case WriteCopy(request) => s.(rows := Write(s.rows, s.copies[request].id, s.copies[request].row))
    case DropCopy(request) => s.(copies := s.copies - {request})
    case WakeVm(id) => s.(asleep := s.asleep - {id})
    case RequestTerminate(id) =>
      // the row is rebuilt from the request, which carries no start time
      s.(rows := Write(s.rows, id, Row(Terminating, 0, false, s.now)))
    case ClaimRows(job, ids, allowed) =>
      s.(rows := Terminated(s.rows, ids, s.now), jobs := s.jobs[job := Collecting(Batch(s, job) + ids)])
    case Target(job, id) => s.(jobs := s.jobs[job := Collecting(Batch(s, job) + {id})])
    case DriverReturns(job, failed) => s.(jobs := s.jobs[job := Removing(s.jobs[job].batch - failed)])
    case RemoveRow(job, id) => s.(rows := s.rows - {id})
    case JobEnds(job) => s.(jobs := s.jobs - {job})
    case ForceDelete(ids, maxAge) => s.(rows := s.rows - ids, forced := s.forced + ids)
    case VmGone(id) => s.(live := s.live - {id})
    case Tick(seconds) => s.(now := s.now + seconds)
  }

  type Run = seq<Step>

  predicate Valid(s: State, run: Run)
    decreases |run|
  {
    run == [] || (Enabled(s, run[0]) && Valid(Apply(s, run[0]), run[1..]))
  }

  function Exec(s: State, run: Run): State
    requires Valid(s, run)
    decreases |run|
  {
    if run == [] then s else Exec(Apply(s, run[0]), run[1..])
  }

  /** Runs compose: an invariant of single steps carries over to method traces. */
  lemma {:induction false} ValidConcat(s: State, first: Run, second: Run)
    requires Valid(s, first) && Valid(Exec(s, first), second)
    ensures Valid(s, first + second) && Exec(s, first + second) == Exec(Exec(s, first), second)
    decreases |first|
  {
    if first == [] {
      assert first + second == second;
    } else {
      ValidConcat(Apply(s, first[0]), first[1..], second);
      assert (first + second)[1..] == first[1..] + second;
    }
  }

  lemma {:induction false} ValidAppend(s: State, run: Run, step: Step)
    requires Valid(s, run) && Enabled(Exec(s, run), step)
    ensures Valid(s, run + [step]) && Exec(s, run + [step]) == Apply(Exec(s, run), step)
  {
    var t := Exec(s, run);
    assert [step][1..] == [];
    assert Valid(t, [step]) && Exec(t, [step]) == Apply(t, step);
    ValidConcat(s, run, [step]);
  }

  /** The state reached by the run so far, one step further. */
  lemma {:induction false} Then(s: State, run: Run, t: State, step: Step) returns (longer: Run, u: State)
    requires Valid(s, run) && Exec(s, run) == t && Enabled(t, step)
    ensures Valid(s, longer) && Exec(s, longer) == u == Apply(t, step)
    ensures longer == run + [step]
  {
    ValidAppend(s, run, step);
    longer, u := run + [step], Apply(t, step);
  }

  lemma {:induction false} ValidCons(s: State, step: Step, rest: Run)
    requires Enabled(s, step) && Valid(Apply(s, step), rest)
    ensures Valid(s, [step] + rest) && Exec(s, [step] + rest) == Exec(Apply(s, step), rest)
  {
    assert ([step] + rest)[1..] == rest;
  }
}
