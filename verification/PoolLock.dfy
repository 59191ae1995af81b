/** The single-runner manager: one mutex per pool, taken and released several times within one
    operation. Every locked region is one step; the few writes the code makes without the lock
    are steps of their own. */
module PoolLock {

  type Id = string

  datatype InstanceState = Provisioning | Created | InUse | Hibernating | Terminating

  datatype Row = Row(state: InstanceState, started: int, hibernated: bool)

  datatype Copy = Copy(id: Id, row: Row)

  /** Program counter of the hibernation goroutine. Connecting: waiting for the VM. Trying: about
      to lock the pool and mark the row. Sleeping: lock released, driver being asked. */
  datatype Phase = Connecting(row: Row) | Trying(attempt: nat) | Sleeping(attempt: nat)

  const MAX_RETRIES: nat := 3

  datatype State = State(
    now: int,
    rows: map<Id, Row>,
    live: set<Id>,      // VMs that exist
    gone: set<Id>,      // what a driver was asked to destroy and did not report as failed
    born: set<Id>,
    goroutines: map<Id, Phase>,
    copies: set<Copy>,
    handed: set<Id>,    // taken from the free instances
    owned: set<Id>)     // created on demand for a request

  const INIT := State(0, map[], {}, {}, {}, map[], {}, {}, {})

  datatype Step =
    | StoreWarm(id: Id)
    | StoreOnDemand(id: Id)
    | Connected(id: Id)
    | GoroutineEnds(id: Id)
    | HibernateBegins(id: Id)
    | HibernateFails(id: Id, retryable: bool)
    | HibernateCompletes(id: Id)
    | Provision(id: Id)
    | ReadRow(id: Id)
    | EditCopy(copy: Copy, row: Row)
    | WriteCopy(copy: Copy)
    | VmsGone(ids: set<Id>)
    | DriverAnswers(batch: set<Id>, failed: set<Id>)
    | RemoveRows(ids: set<Id>)
    | Tick(seconds: nat)

  /** The free instance with the earliest start; ties are broken arbitrarily. */
  predicate Oldest(rows: map<Id, Row>, id: Id) {
    && id in rows && rows[id].state == Created
    && forall other | other in rows && rows[other].state == Created :: rows[id].started <= rows[other].started
  }

  predicate Enabled(s: State, step: Step) {
    match step
    case StoreWarm(id) => id !in s.born
    case StoreOnDemand(id) => id !in s.born
    case Connected(id) => id in s.goroutines && s.goroutines[id].Connecting?
    case GoroutineEnds(id) => id in s.goroutines
    case HibernateBegins(id) => id in s.goroutines && s.goroutines[id].Trying?
    case HibernateFails(id, _) => id in s.goroutines && s.goroutines[id].Sleeping?
    case HibernateCompletes(id) => id in s.goroutines && s.goroutines[id].Sleeping?
    case Provision(id) => Oldest(s.rows, id)
    case ReadRow(id) => id in s.rows && id in s.handed + s.owned
    case EditCopy(copy, row) =>
      // handlers never touch the start time of a row they read
      && copy in s.copies && row.started == copy.row.started
      && (row.state == copy.row.state || row.state == Terminating)
    case WriteCopy(copy) => copy in s.copies
    case VmsGone(_) => true
    // driver contract: an instance that is not reported as failed no longer exists
    case DriverAnswers(batch, failed) => batch - failed !! s.live
    case RemoveRows(ids) => forall id | id in ids && id in s.rows :: id in s.gone
    case Tick(_) => true
  }

  function Write(rows: map<Id, Row>, id: Id, row: Row): map<Id, Row> {
    if id in rows then rows[id := row] else rows
  }

  function SetState(rows: map<Id, Row>, id: Id, state: InstanceState): map<Id, Row> {
    if id in rows then rows[id := rows[id].(state := state)] else rows
  }

  /** The row as it is handed out: a hibernated instance starts its age anew. */
  function Taken(row: Row, now: int): Row {
    row.(state := InUse, started := if row.hibernated then now else row.started)
  }

  /** What a hand-out makes of a row: in use, as old as before, or brand new when it was hibernated. */
  predicate HandedOut(before: Row, after: Row, now: int) {
    && after.state == InUse && after.hibernated == before.hibernated
    && (!before.hibernated ==> after.started == before.started)
    && (before.hibernated ==> after.started == now)
  }

  function Apply(s: State, step: Step): State
    requires Enabled(s, step)
  {
    match step
    case StoreWarm(id) =>
      var row := Row(Provisioning, s.now, false);
      s.(rows := s.rows[id := row], live := s.live + {id}, born := s.born + {id},
         goroutines := s.goroutines[id := Connecting(row)])
    case StoreOnDemand(id) =>
      var row := Row(InUse, s.now, false);
      s.(rows := s.rows[id := row], live := s.live + {id}, born := s.born + {id}, owned := s.owned + {id},
         copies := s.copies + {Copy(id, row)})
    case Connected(id) =>
      // written without the lock, from the copy kept since the row was stored
      s.(rows := Write(s.rows, id, s.goroutines[id].row.(state := Created)),
        goroutines := s.goroutines[id := Trying(1)])
    case GoroutineEnds(id) => s.(goroutines := s.goroutines - {id})
    case HibernateBegins(id) =>
      if id !in s.rows || s.rows[id].state == InUse then s.(goroutines := s.goroutines - {id})
      else s.(rows := SetState(s.rows, id, Hibernating),
              goroutines := s.goroutines[id := Sleeping(s.goroutines[id].attempt)])
    case HibernateFails(id, retryable) =>
      var attempt := s.goroutines[id].attempt;
      s.(rows := SetState(s.rows, id, Created),
         goroutines := if retryable && attempt < MAX_RETRIES then s.goroutines[id := Trying(attempt + 1)]
                       else s.goroutines - {id})
    case HibernateCompletes(id) =>
      s.(rows := if id in s.rows then s.rows[id := s.rows[id].(state := Created, hibernated := true)] else s.rows,
         goroutines := s.goroutines - {id})
    case Provision(id) =>
      var row := Taken(s.rows[id], s.now);
      s.(rows := s.rows[id := row], handed := s.handed + {id}, copies := s.copies + {Copy(id, row)})
    case ReadRow(id) => s.(copies := s.copies + {Copy(id, s.rows[id])})
    case EditCopy(copy, row) => s.(copies := s.copies + {Copy(copy.id, row)})
    case WriteCopy(copy) => s.(rows := Write(s.rows, copy.id, copy.row))
    case VmsGone(ids) => s.(live := s.live - ids)
    case DriverAnswers(batch, failed) => s.(gone := s.gone + (batch - failed) * s.born)
    case RemoveRows(ids) => s.(rows := s.rows - ids)
    case Tick(seconds) => s.(now := s.now + seconds)
  }

  type Run = seq<Step>

  predicate Valid(s: State, run: Run)
    decreases |run|
  {
    run == [] || (Enabled(s, run[0]) && Valid(Apply(s, run[0]), run[1..]))
  }

  function Exec(s: State, run: Run): State
    requires Valid(s, run)
    decreases |run|
  {
    if run == [] then s else Exec(Apply(s, run[0]), run[1..])
  }

  lemma {:induction false} ValidAppend(s: State, run: Run, step: Step)
    requires Valid(s, run) && Enabled(Exec(s, run), step)
    ensures Valid(s, run + [step]) && Exec(s, run + [step]) == Apply(Exec(s, run), step)
    decreases |run|
  {
    if run == [] {
      assert (run + [step])[1..] == [];
    } else {
      ValidAppend(Apply(s, run[0]), run[1..], step);
      assert (run + [step])[1..] == run[1..] + [step];
    }
  }

  // ---------- Destroy before forget ----------

  /** What a driver destroyed stays destroyed, and a VM that exists has its row. */
  ghost predicate DestroyedFirst(s: State) {
    s.live <= s.rows.Keys <= s.born && s.gone <= s.born && s.gone !! s.live
  }

  lemma {:induction false} DestroyedFirstStep(s: State, step: Step)
    requires DestroyedFirst(s) && Enabled(s, step)
    ensures DestroyedFirst(Apply(s, step))
  {
    var t := Apply(s, step);
    forall id | id in t.live ensures id in t.rows {
      if id in s.live { assert id in s.rows && id !in s.gone; }
    }
  }

  lemma {:induction false} DestroyedFirstRun(s: State, run: Run)
    requires DestroyedFirst(s) && Valid(s, run)
    ensures DestroyedFirst(Exec(s, run))
    decreases |run|
  {
    if run != [] {
      DestroyedFirstStep(s, run[0]);
      DestroyedFirstRun(Apply(s, run[0]), run[1..]);
    }
  }

  /** Whatever the interleaving, a VM that still exists has its row: rows are only dropped after a
      driver answered, and only those it did not report as failed. */
  lemma {:induction false} LiveIsRecorded(run: Run)
    requires Valid(INIT, run)
    ensures Exec(INIT, run).live <= Exec(INIT, run).rows.Keys
  {
    DestroyedFirstRun(INIT, run);
  }

  // ---------- Hand-out, instance by instance ----------

  ghost predicate Consistent(s: State) {
    && s.rows.Keys <= s.born && s.goroutines.Keys <= s.born && s.handed + s.owned <= s.born
    && (forall c | c in s.copies :: c.id in s.handed + s.owned)
  }

  /** Once given out, the row is in use or terminating, and no pending write says otherwise. */
  ghost predicate HeldProperly(s: State, id: Id) {
    && (id in s.goroutines && !s.goroutines[id].Trying? ==> id !in s.handed + s.owned)
    && (id in s.goroutines && !s.goroutines[id].Trying? && id in s.rows ==> s.rows[id].state != Created)
    && (id in s.goroutines ==> id !in s.owned)
    && (id in s.rows && s.rows[id].state == InUse ==> id in s.handed + s.owned)
    && (id in s.handed + s.owned && id in s.rows ==> s.rows[id].state == InUse || s.rows[id].state == Terminating)
    && (forall c | c in s.copies && c.id == id :: c.row.state == InUse || c.row.state == Terminating)
  }

  /** The only thing that can go wrong: hibernation starting on a terminating row. */
  predicate Guard(s: State, step: Step, id: Id) {
    step == HibernateBegins(id) && id in s.rows ==> s.rows[id].state != Terminating
  }

  predicate Guarded(s: State, run: Run, id: Id)
    requires Valid(s, run)
    decreases |run|
  {
    run == [] || (Guard(s, run[0], id) && Guarded(Apply(s, run[0]), run[1..], id))
  }

  lemma {:induction false} ConsistentStep(s: State, step: Step)
    requires Consistent(s) && Enabled(s, step)
    ensures Consistent(Apply(s, step))
  {
  }

  lemma {:induction false} HeldProperlyStep(s: State, step: Step, id: Id)
    requires Consistent(s) && HeldProperly(s, id) && Enabled(s, step) && Guard(s, step, id)
    ensures HeldProperly(Apply(s, step), id)
  {
  }

  predicate GivenOutOnce(run: Run, id: Id) {
    forall i, j | 0 <= i < j < |run| :: run[i] == Provision(id) ==> run[j] != Provision(id)
  }

  lemma {:induction false} GuardedRun(s: State, run: Run, id: Id)
    requires Consistent(s) && HeldProperly(s, id) && Valid(s, run) && Guarded(s, run, id)
    ensures Consistent(Exec(s, run)) && HeldProperly(Exec(s, run), id)
    ensures id in s.handed ==> Provision(id) !in run
    ensures GivenOutOnce(run, id)
    decreases |run|
  {
    if run != [] {
      ConsistentStep(s, run[0]);
      HeldProperlyStep(s, run[0], id);
      GuardedRun(Apply(s, run[0]), run[1..], id);
      assert run == [run[0]] + run[1..];
      forall i, j | 0 <= i < j < |run| ensures run[i] == Provision(id) ==> run[j] != Provision(id) {
        assert run[j] == run[1..][j - 1];
        if i > 0 { assert run[i] == run[1..][i - 1]; }
      }
    }
  }

  /** Every run in which hibernation never starts on a terminating row gives this instance out at
      most once, and whenever a hibernation completes or fails, the row it writes is not in use. */
  lemma {:induction false} GivenOutAtMostOnce(run: Run, id: Id)
    requires Valid(INIT, run) && Guarded(INIT, run, id)
    ensures GivenOutOnce(run, id)
    ensures
      var s := Exec(INIT, run);
      (Enabled(s, HibernateCompletes(id)) || Enabled(s, Connected(id))) && id in s.rows ==>
        s.rows[id].state != InUse && id !in s.handed + s.owned
  {
    GuardedRun(INIT, run, id);
  }

  // ---------- How old a handed-out instance is ----------

  /** By its row, the instance is older than this age limit. */
  predicate Older(s: State, id: Id, maxAge: int) {
    id in s.rows && s.now - s.rows[id].started > maxAge
  }

  /** Nothing gives the row a start before `birth`. */
  ghost predicate Young(s: State, id: Id, birth: int) {
    && birth <= s.now && (id in s.rows ==> birth <= s.rows[id].started) && id in s.born
    && (forall c | c in s.copies && c.id == id :: birth <= c.row.started)
    && (id in s.goroutines ==> !s.goroutines[id].Connecting?)
  }

  lemma {:induction false} YoungStep(s: State, step: Step, id: Id, birth: int)
    requires Young(s, id, birth) && Enabled(s, step)
    ensures Young(Apply(s, step), id, birth)
  {
  }

  lemma {:induction false} YoungRun(s: State, run: Run, id: Id, birth: int)
    requires Young(s, id, birth) && Valid(s, run)
    ensures Young(Exec(s, run), id, birth)
    decreases |run|
  {
    if run != [] {
      YoungStep(s, run[0], id, birth);
      YoungRun(Apply(s, run[0]), run[1..], id, birth);
    }
  }

  /** A hand-out leaves the age of an instance that was awake alone, and no run makes an instance that
      was hibernated older than the time since its hand-out: an age limit gives its stage the whole
      limit, however long it had slept. */
  lemma {:induction false} HandOutAge(s: State, id: Id, run: Run, maxAge: int)
    requires Consistent(s) && HeldProperly(s, id) && Enabled(s, Provision(id)) && Valid(Apply(s, Provision(id)), run)
    ensures !s.rows[id].hibernated ==> Older(Apply(s, Provision(id)), id, maxAge) == Older(s, id, maxAge)
    ensures s.rows[id].hibernated && Older(Exec(Apply(s, Provision(id)), run), id, maxAge) ==>
      Exec(Apply(s, Provision(id)), run).now > s.now + maxAge
  {
    if s.rows[id].hibernated {
      assert forall c | c in s.copies :: c.id != id;
      YoungRun(Apply(s, Provision(id)), run, id, s.now);
    }
  }

  // ---------- What happens without the guard ----------

  /** Once the goroutine of a given-out instance is gone, nothing needs guarding. */
  lemma {:induction false} NoGoroutineNoProvision(s: State, run: Run, id: Id)
    requires Consistent(s) && HeldProperly(s, id) && Valid(s, run)
    requires id in s.handed && id !in s.goroutines
    ensures Provision(id) !in run
    decreases |run|
  {
    if run != [] {
      ConsistentStep(s, run[0]);
      HeldProperlyStep(s, run[0], id);
      NoGoroutineNoProvision(Apply(s, run[0]), run[1..], id);
      assert run == [run[0]] + run[1..];
    }
  }

  ghost predicate LeadsToProvision(s: State, run: Run, id: Id) {
    Valid(s, run) && Provision(id) in run
  }

  /** When everything else is destroyed and the hibernation completes, the instance is the next to be
      handed out. */
  lemma {:induction false} OthersDestroyed(s: State, id: Id) returns (run: Run)
    requires Consistent(s) && id in s.rows && Enabled(s, HibernateCompletes(id))
    ensures LeadsToProvision(s, run, id)
  {
    var others := s.rows.Keys - {id};
    var absent := Apply(s, VmsGone(others));
    var answered := Apply(absent, DriverAnswers(others, {}));
    var alone := Apply(answered, RemoveRows(others));
    var done := Apply(alone, HibernateCompletes(id));
    assert Enabled(done, Provision(id));
    run := [VmsGone(others), DriverAnswers(others, {}), RemoveRows(others), HibernateCompletes(id), Provision(id)];
    assert run[4..][1..] == [] && run[4..][0] == Provision(id);
    assert Valid(done, run[4..]);
    assert run[3..][0] == HibernateCompletes(id) && run[3..][1..] == run[4..] && Valid(alone, run[3..]);
    assert run[2..][0] == RemoveRows(others) && run[2..][1..] == run[3..] && Valid(answered, run[2..]);
    assert run[1..][0] == DriverAnswers(others, {}) && run[1..][1..] == run[2..] && Valid(absent, run[1..]);
    assert run[4] == Provision(id);
  }

  /** The exact guard. For an instance that was given out while its goroutine is about to try
      hibernation, that try makes a second hand-out possible if and only if the row is
      "terminating": the code only steps back from rows that are in use. */
  lemma {:induction false} SecondHandOutIff(s: State, id: Id)
    requires Consistent(s) && HeldProperly(s, id)
    requires id in s.handed && id in s.rows && Enabled(s, HibernateBegins(id))
    ensures (exists run :: LeadsToProvision(Apply(s, HibernateBegins(id)), run, id)) <==>
      s.rows[id].state == Terminating
  {
    var begun := Apply(s, HibernateBegins(id));
    if s.rows[id].state == Terminating {
      var run := OthersDestroyed(begun, id);
      assert LeadsToProvision(begun, run, id);
    } else {
      ConsistentStep(s, HibernateBegins(id));
      HeldProperlyStep(s, HibernateBegins(id), id);
      forall run ensures !LeadsToProvision(begun, run, id) {
        if Valid(begun, run) { NoGoroutineNoProvision(begun, run, id); }
      }
    }
  }

  lemma {:induction false} GivenOutWarm(id: Id) returns (run: Run, s: State)
    ensures Valid(INIT, run) && Exec(INIT, run) == s && |run| == 3 && run[2] == Provision(id)
    ensures s == State(0, map[id := Row(InUse, 0, false)], {id}, {}, {id}, map[id := Trying(1)],
                       {Copy(id, Row(InUse, 0, false))}, {id}, {})
  {
    run, s := Then([], INIT, StoreWarm(id));
    run, s := Then(run, s, Connected(id));
    run, s := Then(run, s, Provision(id));
  }

  /** The bad case is reachable: the instance is given out between the "created" write and the
      hibernation try, and its job ends before the try. */
  lemma {:induction false} SecondHandOutReachable(id: Id) returns (run: Run)
    ensures Valid(INIT, run) && Provision(id) in run
    ensures
      var s := Exec(INIT, run);
      id in s.handed && id in s.rows && s.rows[id].state == Terminating && Enabled(s, HibernateBegins(id))
  {
    var held := Copy(id, Row(InUse, 0, false));
    var ended := Copy(id, Row(Terminating, 0, false));
    var s;
    run, s := GivenOutWarm(id);
    run, s := Then(run, s, EditCopy(held, ended.row));
    run, s := Then(run, s, WriteCopy(ended));
    assert run[2] == Provision(id);
  }

  lemma {:induction false} Then(run: Run, s: State, step: Step) returns (longer: Run, t: State)
    requires Valid(INIT, run) && Exec(INIT, run) == s && Enabled(s, step)
    ensures longer == run + [step] && t == Apply(s, step)
    ensures Valid(INIT, longer) && Exec(INIT, longer) == t
  {
    ValidAppend(INIT, run, step);
    longer, t := run + [step], Apply(s, step);
  }

  // ---------- The operations ----------

  predicate SortedByStarted(rows: map<Id, Row>, ids: seq<Id>) {
    && (forall id | id in ids :: id in rows)
    && forall i, j | 0 <= i < j < |ids| :: rows[ids[i]].started <= rows[ids[j]].started
  }

  function Insert(rows: map<Id, Row>, id: Id, ids: seq<Id>): (r: seq<Id>)
    requires id in rows && SortedByStarted(rows, ids)
    ensures SortedByStarted(rows, r) && |r| == |ids| + 1
    ensures forall x :: x in r <==> x == id || x in ids
  {
    if ids == [] then [id]
    else if rows[id].started <= rows[ids[0]].started then [id] + ids
    else
      var rest := Insert(rows, id, ids[1..]);
      assert forall x | x in rest :: rows[ids[0]].started <= rows[x].started;
      [ids[0]] + rest
  }

  function Sort(rows: map<Id, Row>, ids: seq<Id>): (r: seq<Id>)
    requires forall id | id in ids :: id in rows
    ensures SortedByStarted(rows, r) && |r| == |ids|
    ensures forall x :: x in r <==> x in ids
  {
    if ids == [] then [] else Insert(rows, ids[0], Sort(rows, ids[1..]))
  }

  class LockedPool {
    var s: State
    ghost var run: Run

    ghost predicate Faithful()
      reads this
    {
      Valid(INIT, run) && Exec(INIT, run) == s
    }

    constructor ()
      ensures Faithful() && s == INIT
    {
      s, run := INIT, [];
    }

    /** One locked region, or one unlocked write. */
    method Do(step: Step)
      requires Faithful() && Enabled(s, step)
      modifies this
      ensures Faithful() && s == Apply(old(s), step) && run == old(run) + [step]
    {
      ValidAppend(INIT, run, step);
      s := Apply(s, step);
      run := run + [step];
    }

    /** Hands out the free instance with the earliest start, or creates one when none is free and
        the strategy allows it. `listing` is the order in which the store lists the rows. */
    method ProvisionFromPool(listing: seq<Id>, canCreate: bool, spare: Id) returns (instance: seq<Id>, warmed: bool)
      requires Faithful() && (forall id :: id in listing <==> id in s.rows) && spare !in s.born
      modifies this
      ensures Faithful() && old(run) <= run
      ensures warmed <==> exists id :: id in old(s).rows && old(s).rows[id].state == Created
      ensures warmed ==>
        && |instance| == 1 && Oldest(old(s).rows, instance[0])
        && s.rows == old(s).rows[instance[0] := Taken(old(s).rows[instance[0]], s.now)]
        && s.handed == old(s).handed + {instance[0]} && s.goroutines == old(s).goroutines
        && HandedOut(old(s).rows[instance[0]], s.rows[instance[0]], s.now)
        && forall id | id in old(s).rows && old(s).rows[id].state == Created ::
             old(s).rows[instance[0]].started <= old(s).rows[id].started
      ensures !warmed && canCreate ==>
        && instance == [spare] && s.owned == old(s).owned + {spare}
        && s.rows == old(s).rows[spare := Row(InUse, s.now, false)]
      ensures !warmed && !canCreate ==> instance == [] && s == old(s)
    {
      var free: seq<Id> := [];
      for i := 0 to |listing|
        invariant Faithful() && s == old(s) && run == old(run)
        invariant forall id :: id in free <==> id in listing[..i] && s.rows[id].state == Created
      {
        if s.rows[listing[i]].state == Created { free := free + [listing[i]]; }
      }
      assert listing[..|listing|] == listing;
      if free == [] {
        if !canCreate { return [], false; }
        Do(StoreOnDemand(spare));
        return [spare], false;
      }
      var sorted := Sort(s.rows, free);
      var inst := sorted[0];
      assert inst in sorted && Oldest(s.rows, inst);
      Do(Provision(inst));
      return [inst], true;
    }

    /** hibernate: marks the row under the lock, asks the driver without it, and writes the
        outcome under the lock again. `gap` is what others do while the driver works. */
    method Hibernate(id: Id, driverOk: bool, retryable: bool, gap: Run) returns (retry: bool)
      requires Faithful() && Enabled(s, HibernateBegins(id))
      requires forall k | 0 <= k < |gap| :: LeavesGoroutine(gap[k], id)
      modifies this
      ensures Faithful() && old(run) + [HibernateBegins(id)] <= run && Tries(run, id) == Tries(old(run), id) + 1
      ensures retry <==>
        !StepsBack(old(s), id) && !driverOk && retryable && old(s).goroutines[id].attempt < MAX_RETRIES
      ensures retry ==> id in s.goroutines && s.goroutines[id] == Trying(old(s).goroutines[id].attempt + 1)
      ensures !retry ==> id !in s.goroutines
      ensures StepsBack(old(s), id) ==> s == old(s).(goroutines := old(s).goroutines - {id})
      ensures gap == [] && !StepsBack(old(s), id) ==>
        s.rows == old(s).rows[id := old(s).rows[id].(state := Created,
          hibernated := driverOk || old(s).rows[id].hibernated)]
    {
      Do(HibernateBegins(id));
      CountOne(old(run), HibernateBegins(id), id);
      if id !in s.goroutines { return false; }
      Gap(gap, id);
      ghost var before := run;
      if driverOk {
        Do(HibernateCompletes(id));
        CountOne(before, HibernateCompletes(id), id);
        return false;
      }
      Do(HibernateFails(id, retryable));
      CountOne(before, HibernateFails(id, retryable), id);
      return id in s.goroutines;
    }

    /** hibernateOrStopWithRetries: tries until the driver succeeds, an error cannot be retried, or
        three tries were made, with a pause after each failure. `last` is the place in the run at
        which the last try began: a retryable failure is not followed by another try only when that
        try stepped back before asking the driver. */
    method HibernateWithRetries(id: Id, driverOk: seq<bool>, retryable: seq<bool>, gaps: seq<Run>, pauses: seq<Run>)
      returns (tries: nat, ghost last: nat)
      requires Faithful() && id in s.goroutines && s.goroutines[id] == Trying(1)
      requires |driverOk| == |retryable| == |gaps| == |pauses| == MAX_RETRIES
      requires forall k, i | 0 <= k < MAX_RETRIES && 0 <= i < |gaps[k]| :: LeavesGoroutine(gaps[k][i], id)
      requires forall k, i | 0 <= k < MAX_RETRIES && 0 <= i < |pauses[k]| :: LeavesGoroutine(pauses[k][i], id)
      modifies this
      ensures Faithful() && old(run) <= run && id !in s.goroutines
      ensures 1 <= tries <= 3 && Tries(run, id) == Tries(old(run), id) + tries
      ensures forall k | 0 <= k < tries - 1 :: !driverOk[k] && retryable[k]
      ensures |old(run)| <= last < |run| && run[last] == HibernateBegins(id) && Valid(INIT, run[..last])
      ensures tries < 3 ==>
        driverOk[tries - 1] || !retryable[tries - 1] || StepsBack(Exec(INIT, run[..last]), id)
    {
      var retry := true;
      tries, last := 0, |run|;
      while retry
        invariant Faithful() && old(run) <= run && 0 <= tries <= MAX_RETRIES
        invariant Tries(run, id) == Tries(old(run), id) + tries
        invariant retry ==> tries < MAX_RETRIES && id in s.goroutines && s.goroutines[id] == Trying(tries + 1)
        invariant forall k | 0 <= k < (if retry then tries else tries - 1) :: !driverOk[k] && retryable[k]
        invariant !retry ==> tries > 0 && id !in s.goroutines && LastTry(run, last, id) && |old(run)| <= last
        invariant !retry && tries < MAX_RETRIES ==>
          driverOk[tries - 1] || !retryable[tries - 1] || StepsBack(Exec(INIT, run[..last]), id)
        decreases MAX_RETRIES - tries, retry
      {
        ghost var before := run;
        last := |run|;
        retry := Hibernate(id, driverOk[tries], retryable[tries], gaps[tries]);
        assert run[..last] == before && run[last] == (before + [HibernateBegins(id)])[last];
        if retry { Gap(pauses[tries], id); }
        tries := tries + 1;
      }
    }

    /** A stretch in which only others act; none of them moves this goroutine. */
    method Gap(gap: Run, ghost id: Id)
      requires Faithful() && forall k | 0 <= k < |gap| :: LeavesGoroutine(gap[k], id)
      modifies this
      ensures Faithful() && old(run) <= run && Tries(run, id) == Tries(old(run), id)
      ensures id in old(s).goroutines ==> id in s.goroutines && s.goroutines[id] == old(s).goroutines[id]
      ensures gap == [] ==> s == old(s)
    {
      for i := 0 to |gap|
        invariant Faithful() && old(run) <= run && Tries(run, id) == Tries(old(run), id)
        invariant id in old(s).goroutines ==> id in s.goroutines && s.goroutines[id] == old(s).goroutines[id]
        invariant i == 0 ==> s == old(s)
      {
        // a step that cannot happen here is left out
        if !Enabled(s, gap[i]) { continue; }
        assert LeavesGoroutine(gap[i], id);
        CountOne(run, gap[i], id);
        Do(gap[i]);
      }
    }

    /** cleanPool and the purger: under the lock, has the selected instances destroyed and removes the
        rows of those the driver did not report as failed. */
    method DestroyStale(selected: seq<Id>, failed: set<Id>) returns (ok: bool)
      requires Faithful()
      modifies this
      ensures Faithful() && old(run) <= run
      ensures ok <==> forall id | id in selected :: id !in failed
      ensures
        var gone := (set id | id in selected) - failed;
        && s.rows == old(s).rows - gone && s.live == old(s).live - gone
        && s == old(s).(rows := s.rows, live := s.live, gone := s.gone)
    {
      ok := true;
      var batch := set id | id in selected;
      AskDriver(batch, failed);
      ghost var gone := batch - failed;
      for i := 0 to |selected|
        invariant Faithful() && old(run) <= run
        invariant ok <==> forall id | id in selected[..i] :: id !in failed
        invariant s.live == old(s).live - gone && gone * s.rows.Keys <= s.gone
        invariant s.rows == old(s).rows - ((set id | id in selected[..i]) - failed)
        invariant s == old(s).(rows := s.rows, live := s.live, gone := s.gone)
      {
        assert selected[..i + 1] == selected[..i] + [selected[i]] && selected[i] in batch;
        if selected[i] in failed { ok := false; } else { Do(RemoveRows({selected[i]})); }
      }
      assert selected[..|selected|] == selected;
    }

    /** The driver destroys what it does not report as failed, and answers. */
    method AskDriver(batch: set<Id>, failed: set<Id>)
      requires Faithful()
      modifies this
      ensures Faithful() && old(run) <= run
      ensures s.live == old(s).live - (batch - failed) && (batch - failed) * s.rows.Keys <= s.gone
      ensures s == old(s).(live := s.live, gone := s.gone)
    {
      DestroyedFirstRun(INIT, run);
      Do(VmsGone(batch - failed));
      Do(DriverAnswers(batch, failed));
    }
  }

  /** hibernate steps back from a row that is gone or in use. */
  predicate StepsBack(s: State, id: Id) {
    id !in s.rows || s.rows[id].state == InUse
  }

  /** How many hibernation tries of this instance a run holds. */
  function Tries(run: Run, id: Id): nat {
    if run == [] then 0 else (if run[0] == HibernateBegins(id) then 1 else 0) + Tries(run[1..], id)
  }

  lemma {:induction false} CountOne(run: Run, step: Step, id: Id)
    ensures Tries(run + [step], id) == Tries(run, id) + if step == HibernateBegins(id) then 1 else 0
    decreases |run|
  {
    if run == [] {
      assert (run + [step])[1..] == [];
    } else {
      assert (run + [step])[1..] == run[1..] + [step];
      CountOne(run[1..], step, id);
    }
  }

  /** A try of this instance begins at this place of the run. */
  ghost predicate LastTry(run: Run, last: nat, id: Id) {
    last < |run| && run[last] == HibernateBegins(id) && Valid(INIT, run[..last])
  }

  /** Not a step of the hibernation goroutine of `id`. */
  predicate LeavesGoroutine(step: Step, id: Id) {
    match step
    case Connected(i) => i != id
    case GoroutineEnds(i) => i != id
    case HibernateBegins(i) => i != id
    case HibernateFails(i, _) => i != id
    case HibernateCompletes(i) => i != id
    case StoreWarm(i) => i != id
    case _ => true
  }
}
