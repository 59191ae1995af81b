/** Capacity reservations: rows keyed by stage that only ever change by claims, creation and
    deletion, next to the reservations that really exist in the cloud. */
module Reservations {
  import opened Options

  type Stage = string
  type ReservationId = string
  type InstanceId = string
  type Proc = nat

  datatype ReservationState = Created | InUse | Terminating

  datatype Record = Record(rid: Option<ReservationId>, instance: Option<InstanceId>, createdAt: int,
                           state: ReservationState)

  /** Which driver made a reservation. Release always goes to the pool's default driver, which
      answers "done" for a reservation it cannot find. */
  datatype Owner = DefaultDriver | TenantDriver

  /** A capacity object in somebody's memory: a reservation in the cloud, a warm instance kept for the
      stage, or both. */
  datatype Capacity = Capacity(stage: Stage, rid: Option<ReservationId>, instance: Option<InstanceId>)

  /** A capacity request: the reservation is made, or no record was found for its stage. `at` is the
      time the driver stamps on the reservation, which the record takes over. */
  datatype Request = Made(cap: Capacity, at: int) | Creating(cap: Capacity, at: int)

  /** DestroyCapacity: about to claim, destroying the warm instance, calling the driver, deleting the
      record. */
  datatype Destroyer =
    | Claiming(cap: Capacity)
    | Emptying(cap: Capacity)
    | Calling(cap: Capacity)
    | Deleting(cap: Capacity)

  /** One cleanupCapacities sweep; its cutoff is fixed when it starts. `absent` is set when no instance
      was found for the first stage of `todo`. */
  datatype Sweep = Sweep(cutoff: int, listed: seq<Stage>, todo: seq<Stage>, absent: bool)

  /** A stage set up on its reservation, from claiming the record until the stage is over; `tagged` once
      its instance carries the stage's name. */
  datatype Setup = Setup(instance: Option<InstanceId>, at: int, tagged: bool)

  datatype State = State(
    now: int,
    records: map<Stage, Record>,
    cloud: map<ReservationId, Owner>,
    issued: set<ReservationId>,        // every id a driver ever returned
    recorded: set<ReservationId>,      // every id that ever got a record
    requests: map<Proc, Request>,
    destroyers: map<Proc, Destroyer>,
    sweeps: map<Proc, Sweep>,
    held: set<Capacity>,               // capacity objects read from records
    machines: set<InstanceId>,         // warm instances kept for stages that exist
    warmed: map<InstanceId, Stage>,    // every instance ever kept for a stage
    asked: set<Stage>,                 // every stage capacity was requested for
    dropped: set<Stage>,               // every stage whose capacity somebody began to destroy
    setups: map<Stage, Setup>,
    swept: set<Capacity>)              // what sweeps took in to be destroyed

  const INIT := State(0, map[], map[], {}, {}, map[], map[], map[], {}, {}, map[], {}, {}, map[], {})

  datatype Step =
    // capacity request
    | Reserve(proc: Proc, cap: Capacity, owner: Owner)
    | CheckRecord(proc: Proc)
    | CreateRecord(proc: Proc)
    | CreateFails(proc: Proc, destroyer: Proc)
    // setup
    | SetupClaim(stage: Stage)
    | SetupTags(stage: Stage)
    | SetupEnds(stage: Stage)
    | ReadRecord(stage: Stage)
    // DestroyCapacity
    | StartDestroy(proc: Proc, cap: Capacity)
    | ClaimForTermination(proc: Proc, ok: bool)
    | DestroyMachine(proc: Proc, ok: bool)
    | DriverReleases(proc: Proc)
    | DriverFails(proc: Proc)
    | NothingToRelease(proc: Proc)
    | DeleteRecord(proc: Proc)
    | ProcEnds(proc: Proc)
    // cleanupCapacities
    | SweepTerminating(proc: Proc, age: nat, ok: bool, found: seq<Stage>)
    | SweepClaimFree(proc: Proc, found: seq<Stage>)
    | SweepListInUse(proc: Proc, ok: bool, found: seq<Stage>)
    | SweepLooks(proc: Proc, ok: bool)
    | SweepClaimOrphan(proc: Proc)
    | SweepSkip(proc: Proc)
    | SweepEnds(proc: Proc)
    | Tick(seconds: nat)

  predicate Distinct(stages: seq<Stage>) {
    forall i, j | 0 <= i < j < |stages| :: stages[i] != stages[j]
  }

  predicate Stale(s: State, stage: Stage, cutoff: int, state: ReservationState) {
    stage in s.records && s.records[stage].state == state && s.records[stage].createdAt < cutoff
  }

  /** The answer of a List query: every matching stage, each once. */
  predicate ListsAll(s: State, found: seq<Stage>, cutoff: int, state: ReservationState) {
    && Distinct(found) && (forall stage | stage in found :: Stale(s, stage, cutoff, state))
    && (forall stage | stage in s.records && Stale(s, stage, cutoff, state) :: stage in found)
  }

  /** What a query gives: every matching stage, or nothing when it fails; the sweep goes on either way. */
  predicate Lists(s: State, ok: bool, found: seq<Stage>, cutoff: int, state: ReservationState) {
    if ok then ListsAll(s, found, cutoff, state) else found == []
  }

  predicate Idle(s: State, proc: Proc) {
    proc !in s.requests && proc !in s.destroyers && proc !in s.sweeps
  }

  predicate Enabled(s: State, step: Step) {
    match step
    case Reserve(proc, cap, _) =>
      && Idle(s, proc) && cap.stage != "" && (cap.rid.Some? ==> cap.rid.value !in s.issued)
      && (cap.instance.Some? ==> cap.instance.value !in s.warmed)
    case CheckRecord(proc) => proc in s.requests && s.requests[proc].Made?
    case CreateRecord(proc) =>
      proc in s.requests && s.requests[proc].Creating? && s.requests[proc].cap.stage !in s.records
    case CreateFails(proc, destroyer) =>
      proc in s.requests && s.requests[proc].Creating? && (destroyer == proc || Idle(s, destroyer))
    case SetupClaim(stage) => stage in s.records && s.records[stage].state == Created
    case SetupTags(stage) => stage in s.setups
    case SetupEnds(stage) => stage in s.setups
    case ReadRecord(stage) => stage in s.records
    case StartDestroy(proc, cap) => Idle(s, proc) && cap in s.held
    case ClaimForTermination(proc, _) => proc in s.destroyers && s.destroyers[proc].Claiming?
    case DestroyMachine(proc, _) => proc in s.destroyers && s.destroyers[proc].Emptying?
    case DriverReleases(proc) => proc in s.destroyers && s.destroyers[proc].Calling? && s.destroyers[proc].cap.rid.Some?
    case DriverFails(proc) => proc in s.destroyers && s.destroyers[proc].Calling? && s.destroyers[proc].cap.rid.Some?
    case NothingToRelease(proc) => proc in s.destroyers && s.destroyers[proc].Calling? &&
      s.destroyers[proc].cap.rid.None?
    case DeleteRecord(proc) => proc in s.destroyers && s.destroyers[proc].Deleting?
    case ProcEnds(proc) => proc in s.destroyers || proc in s.requests
    case SweepTerminating(proc, age, ok, found) => Idle(s, proc) && Lists(s, ok, found, s.now - age, Terminating)
    case SweepClaimFree(proc, found) =>
      // locked rows may be skipped, and a failed claim finds nothing
      && proc in s.sweeps && s.sweeps[proc].todo == [] && Distinct(found)
      && forall stage | stage in found :: Stale(s, stage, s.sweeps[proc].cutoff, Created)
    case SweepListInUse(proc, ok, found) =>
      proc in s.sweeps && s.sweeps[proc].todo == [] && Lists(s, ok, found, s.sweeps[proc].cutoff, InUse)
    case SweepLooks(proc, _) => proc in s.sweeps && s.sweeps[proc].todo != [] && !s.sweeps[proc].absent
    case SweepClaimOrphan(proc) =>
      && proc in s.sweeps && s.sweeps[proc].todo != [] && s.sweeps[proc].absent
      && s.sweeps[proc].todo[0] in s.records && s.records[s.sweeps[proc].todo[0]].state == InUse
    case SweepSkip(proc) => proc in s.sweeps && s.sweeps[proc].todo != [] && s.sweeps[proc].absent
    case SweepEnds(proc) => proc in s.sweeps
    case Tick(_) => true
  }

  /** The steps of requests, ... */
  predicate Requests(step: Step) {
    step.Reserve? || step.CheckRecord? || step.CreateRecord? || step.CreateFails?
  }

  /** ... of setups, ... */
  predicate SetsUp(step: Step) {
    step.SetupClaim? || step.SetupTags? || step.SetupEnds? || step.ReadRecord?
  }

  /** ... and of DestroyCapacity; the others are those of sweeps and of time. */
  predicate Destroys(step: Step) {
    || step.StartDestroy? || step.ClaimForTermination? || step.DestroyMachine? || step.DriverReleases?
    || step.DriverFails? || step.NothingToRelease? || step.DeleteRecord? || step.ProcEnds?
  }

  predicate Sweeps(step: Step) {
    !Requests(step) && !SetsUp(step) && !Destroys(step)
  }

  function Claimed(records: map<Stage, Record>, stages: set<Stage>): map<Stage, Record> {
    map stage | stage in records :: if stage in stages then records[stage].(state := Terminating) else records[stage]
  }

  function Read(s: State, stages: seq<Stage>): set<Capacity> {
    set stage | stage in stages && stage in s.records :: Of(stage, s.records[stage])
  }

  function Of(stage: Stage, record: Record): Capacity {
    Capacity(stage, record.rid, record.instance)
  }

  function Elements(found: seq<Stage>): set<Stage> {
    set stage | stage in found
  }

  /** What looking the stage's instance up finds: it is tagged, and the look-up succeeds. */
  predicate Found(s: State, stage: Stage, ok: bool) {
    ok && stage in s.setups && s.setups[stage].tagged
  }

  function Reserved(s: State, cap: Capacity): State {
    s.(machines := if cap.instance.Some? then s.machines + {cap.instance.value} else s.machines,
       warmed := if cap.instance.Some? then s.warmed[cap.instance.value := cap.stage] else s.warmed,
       asked := s.asked + {cap.stage})
  }

  /** The sweep goes on to the next stage of its list. */
  function Next(w: Sweep): Sweep
    requires w.todo != []
  {
    w.(todo := w.todo[1..], absent := false)
  }

  function Apply(s: State, step: Step): State
    requires Enabled(s, step)
  {
    match step
    case Reserve(proc, cap, owner) =>
      var t := Reserved(s, cap).(requests := s.requests[proc := Made(cap, s.now)]);
      if cap.rid.Some?
      then t.(cloud := s.cloud[cap.rid.value := owner], issued := s.issued + {cap.rid.value})
      else t
    case CheckRecord(proc) =>
      var cap := s.requests[proc].cap;
      if cap.stage in s.records then s.(requests := s.requests - {proc})
      else s.(requests := s.requests[proc := Creating(cap, s.requests[proc].at)])
    case CreateRecord(proc) =>
      var cap := s.requests[proc].cap;
      s.(records := s.records[cap.stage := Record(cap.rid, cap.instance, s.requests[proc].at, Created)],
         recorded := if cap.rid.Some? then s.recorded + {cap.rid.value} else s.recorded,
         requests := s.requests - {proc})
    case CreateFails(proc, destroyer) =>
      s.(requests := s.requests - {proc}, destroyers := s.destroyers[destroyer := Claiming(s.requests[proc].cap)])
    case SetupClaim(stage) =>
      var record := s.records[stage];
      s.(records := s.records[stage := record.(state := InUse)], held := s.held + Read(s, [stage]),
         setups := s.setups[stage := Setup(record.instance, record.createdAt, false)])
    case SetupTags(stage) => s.(setups := s.setups[stage := s.setups[stage].(tagged := true)])
    case SetupEnds(stage) => s.(setups := s.setups - {stage})
    case ReadRecord(stage) => s.(held := s.held + Read(s, [stage]))
    case StartDestroy(proc, cap) =>
      s.(destroyers := s.destroyers[proc := Claiming(cap)], dropped := s.dropped + {cap.stage})
    case ClaimForTermination(proc, ok) =>
      var cap := s.destroyers[proc].cap;
      s.(records := if ok then Claimed(s.records, {cap.stage}) else s.records,
         destroyers := s.destroyers[proc := Emptying(cap)])
    case DestroyMachine(proc, ok) =>
      // a failure is logged and the destroy goes on
      var cap := s.destroyers[proc].cap;
      s.(machines := if ok && cap.instance.Some? then s.machines - {cap.instance.value} else s.machines,
         destroyers := s.destroyers[proc := Calling(cap)])
    case DriverReleases(proc) =>
      var cap := s.destroyers[proc].cap;
      var rid := cap.rid.value;
      s.(cloud := if rid in s.cloud && s.cloud[rid] == DefaultDriver then s.cloud - {rid} else s.cloud,
         destroyers := s.destroyers[proc := Deleting(cap)])
    case DriverFails(proc) => s.(destroyers := s.destroyers - {proc})
    case NothingToRelease(proc) => s.(destroyers := s.destroyers[proc := Deleting(s.destroyers[proc].cap)])
    case DeleteRecord(proc) =>
      s.(records := s.records - {s.destroyers[proc].cap.stage}, destroyers := s.destroyers - {proc})
    case ProcEnds(proc) => s.(destroyers := s.destroyers - {proc}, requests := s.requests - {proc})
    case SweepTerminating(proc, age, _, found) =>
      s.(sweeps := s.sweeps[proc := Sweep(s.now - age, found, [], false)], held := s.held + Read(s, found),
         swept := s.swept + Read(s, found))
    case SweepClaimFree(proc, found) =>
      s.(records := Claimed(s.records, Elements(found)), held := s.held + Read(s, found),
         swept := s.swept + Read(s, found),
         sweeps := s.sweeps[proc := s.sweeps[proc].(listed := s.sweeps[proc].listed + found)])
    case SweepListInUse(proc, _, found) =>
      s.(sweeps := s.sweeps[proc := s.sweeps[proc].(todo := found, absent := false)])
    case SweepLooks(proc, ok) =>
      var sweep := s.sweeps[proc];
      s.(sweeps := s.sweeps[proc := if Found(s, sweep.todo[0], ok) then Next(sweep) else sweep.(absent := true)])
    case SweepClaimOrphan(proc) =>
      var sweep := s.sweeps[proc];
      var found := [sweep.todo[0]];
      s.(records := Claimed(s.records, {sweep.todo[0]}), held := s.held + Read(s, found),
         swept := s.swept + Read(s, found),
         sweeps := s.sweeps[proc := Next(sweep).(listed := sweep.listed + found)])
    case SweepSkip(proc) => s.(sweeps := s.sweeps[proc := Next(s.sweeps[proc])])
    case SweepEnds(proc) => s.(sweeps := s.sweeps - {proc})
    case Tick(seconds) => s.(now := s.now + seconds)
  }

  type Run = seq<Step>

  predicate Valid(s: State, run: Run)
    decreases |run|
  {
    run == [] || (Enabled(s, run[0]) && Valid(Apply(s, run[0]), run[1..]))
  }

  function Exec(s: State, run: Run): State
    requires Valid(s, run)
    decreases |run|
  {
    if run == [] then s else Exec(Apply(s, run[0]), run[1..])
  }

  lemma {:induction false} ValidAppend(s: State, run: Run, step: Step)
    requires Valid(s, run) && Enabled(Exec(s, run), step)
    ensures Valid(s, run + [step]) && Exec(s, run + [step]) == Apply(Exec(s, run), step)
    decreases |run|
  {
    if run == [] {
      assert (run + [step])[1..] == [];
    } else {
      ValidAppend(Apply(s, run[0]), run[1..], step);
      assert (run + [step])[1..] == run[1..] + [step];
    }
  }

  /** The state reached by a run from the start, one step further. */
  lemma {:induction false} Then(run: Run, s: State, step: Step) returns (longer: Run, t: State)
    requires Valid(INIT, run) && Exec(INIT, run) == s && Enabled(s, step)
    ensures longer == run + [step] && t == Apply(s, step)
    ensures Valid(INIT, longer) && Exec(INIT, longer) == t
  {
    ValidAppend(INIT, run, step);
    longer, t := run + [step], Apply(s, step);
  }
}
