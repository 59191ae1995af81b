/** Which rows a purger sweep offers to the driver and which it drops unseen, by age.
    Times are Unix seconds. */
module PurgerAges {
  import opened InstanceProtocol
  import opened DistributedRunner
  import Safety = InstanceSafety

  const STUCK_TERMINATING_MAX_AGE := 2 * 60
  const STUCK_PROVISIONING_MAX_AGE := 30 * 60
  const EXTENDED_MAX_BUSY := 7 * 24 * 3600
  const MIN_MAX_AGE := 5 * 60

  /** The columns the sweep conditions look at. `kept` is the retain=true label. */
  datatype Entry = Entry(state: InstanceState, started: int, updated: int, kept: bool, ttl: bool)

  datatype Limits = Limits(busy: int, free: int)

  /** StartInstancePurger refuses every other setting. */
  predicate Accepted(limits: Limits) {
    MIN_MAX_AGE <= limits.busy <= limits.free
  }

  predicate Busy(e: Entry) {
    e.state == InUse || e.state == Terminating
  }

  predicate OfferedBusy(e: Entry, now: int, limits: Limits) {
    || (Busy(e) && e.started < now - limits.busy && !e.ttl && !e.kept)
    || (Busy(e) && e.started < now - EXTENDED_MAX_BUSY && e.ttl && !e.kept)
    || (e.state == Terminating && e.updated < now - STUCK_TERMINATING_MAX_AGE)
  }

  predicate OfferedFree(e: Entry, now: int, limits: Limits) {
    || ((e.state == Created || e.state == Hibernating) && e.started < now - limits.free && !e.kept)
    || (e.state == Provisioning && e.started < now - STUCK_PROVISIONING_MAX_AGE)
  }

  /** Offered to the driver by a sweep at this time. */
  predicate Offered(e: Entry, now: int, limits: Limits) {
    OfferedBusy(e, now, limits) || OfferedFree(e, now, limits)
  }

  /** Dropped unseen: the busy pass and the free pass each drop rows beyond twice their limit,
      and neither looks at the state or the labels. */
  predicate Dropped(e: Entry, now: int, limits: Limits) {
    e.started < now - 2 * limits.busy || e.started < now - 2 * limits.free
  }

  /** The busy pass decides: it drops everything the free pass would. */
  lemma {:induction false} BusyPassDropsAll(e: Entry, now: int, limits: Limits)
    requires Accepted(limits)
    ensures Dropped(e, now, limits) <==> e.started < now - 2 * limits.busy
  {
  }

  /** What a sweep drops is what its two passes drop. */
  lemma {:induction false} LeakedIsDropped(s: State, pool: set<Id>, labels: Id -> Labels, limits: Limits)
    requires Accepted(limits)
    ensures Leaked(s, pool, limits.busy) + Leaked(s, pool, limits.free) ==
      set id | id in pool && id in s.rows && Dropped(EntryOf(s.rows[id], labels(id)), s.now, limits)
  {
  }

  /** No accepted setting lets a sweep touch a row younger than five minutes that nobody marked
      terminating, and one still in provisioning has half an hour. */
  lemma {:induction false} YoungRowsAreLeftAlone(e: Entry, now: int, limits: Limits)
    requires Accepted(limits) && e.state != Terminating && now - e.started <= 300
    ensures !Offered(e, now, limits) && !Dropped(e, now, limits)
  {
  }

  lemma {:induction false} StuckProvisioningIsOffered(e: Entry, now: int, limits: Limits)
    requires e.state == Provisioning
    ensures Offered(e, now, limits) <==> now - e.started > 1800
  {
  }

  /** The promise made for force-deletion: a row that is dropped was offered to the driver on
      every sweep for at least the whole age limit before. */
  ghost predicate RetriedBeforeDropped(e: Entry, limits: Limits) {
    forall now, t | Dropped(e, now, limits) && now - limits.busy <= t <= now :: Offered(e, t, limits)
  }

  /** The promise holds for plain busy rows, whatever the limits. */
  lemma {:induction false} PlainBusyRowsAreRetried(e: Entry, limits: Limits)
    requires Accepted(limits) && Busy(e) && !e.ttl && !e.kept
    ensures RetriedBeforeDropped(e, limits)
  {
  }

  /** Free rows meet it exactly when the free limit is no longer than the busy one; with any
      longer free limit they are dropped before a full window of attempts, and beyond twice the
      busy limit before any attempt at all. */
  lemma {:induction false} FreeRowsAreRetriedIff(limits: Limits)
    requires Accepted(limits)
    ensures (forall e: Entry | (e.state == Created || e.state == Hibernating) && !e.kept ::
      RetriedBeforeDropped(e, limits))
      <==> limits.free == limits.busy
    ensures (forall e: Entry, now | (e.state == Created || e.state == Hibernating) && !e.kept &&
                                    Dropped(e, now, limits) :: Offered(e, now, limits))
      <==> limits.free <= 2 * limits.busy
  {
    var e := Entry(Created, 0, 0, false, false);
    var now := 2 * limits.busy + 1;
    assert Dropped(e, now, limits);
    if limits.free > limits.busy {
      assert !Offered(e, now - limits.busy, limits);
      assert !RetriedBeforeDropped(e, limits);
    }
    if limits.free > 2 * limits.busy {
      assert !Offered(e, now, limits);
    }
  }

  /** Rows that were labelled to be kept are never offered while they are free or in use, yet
      they are dropped like any other. */
  lemma {:induction false} KeptRowsAreDroppedUnseen(e: Entry, now: int, limits: Limits)
    requires Accepted(limits) && e.kept && e.state != Terminating && e.state != Provisioning
    ensures !Offered(e, now, limits)
    ensures Dropped(e, now, limits) <==> e.started + 2 * limits.busy < now
  {
  }

  /** Rows with the ttl label get seven days, unless twice the busy limit is shorter. */
  lemma {:induction false} TtlRowsAreOfferedIff(limits: Limits)
    requires Accepted(limits)
    ensures (forall e: Entry, now | e.state == InUse && e.ttl && !e.kept && Dropped(e, now, limits) ::
               Offered(e, now, limits))
      <==> 7 * 24 * 3600 <= 2 * limits.busy
  {
    if 2 * limits.busy < EXTENDED_MAX_BUSY {
      var e := Entry(InUse, 0, 0, false, true);
      var now := 2 * limits.busy + 1;
      assert Dropped(e, now, limits) && !Offered(e, now, limits);
    }
  }

  // ---------- A failed destroy is offered again ----------

  /** The labels of an instance. */
  datatype Labels = Labels(kept: bool, ttl: bool)

  function EntryOf(row: Row, labels: Labels): Entry {
    Entry(row.state, row.started, row.updated, labels.kept, labels.ttl)
  }

  /** What the busy pass of a sweep claims: the rows its conditions select. */
  function Eligible(s: State, labels: Id -> Labels, limits: Limits): set<Id> {
    set id | id in s.rows && OfferedBusy(EntryOf(s.rows[id], labels(id)), s.now, limits)
  }

  /** No claim and no write of this row along the run. */
  predicate Untouched(s: State, run: Run, id: Id)
    requires Valid(s, run)
    decreases |run|
  {
    run == [] || (!Touches(s, run[0], id) && Untouched(Apply(s, run[0]), run[1..], id))
  }

  predicate Touches(s: State, step: Step, id: Id) {
    match step
    case ClaimRows(_, ids, _) => id in ids
    case WriteCopy(request) => request in s.copies && s.copies[request].id == id
    case RequestTerminate(i) => i == id
    case _ => false
  }

  /** Update times lie in the past. */
  ghost predicate Timestamped(s: State) {
    && (forall id | id in s.rows :: s.rows[id].updated <= s.now)
    && (forall r | r in s.copies :: s.copies[r].row.updated <= s.now)
    && (forall id | id in s.goroutines && !s.goroutines[id].Ready? :: s.goroutines[id].row.updated <= s.now)
  }

  lemma {:induction false} TimestampedSetupStep(s: State, step: Step)
    requires Timestamped(s) && Enabled(s, step) && (SetsUp(step) || Hibernates(step))
    ensures Timestamped(Apply(s, step))
  {
  }

  lemma {:induction false} TimestampedOtherStep(s: State, step: Step)
    requires Timestamped(s) && Enabled(s, step) && !SetsUp(step) && !Hibernates(step)
    ensures Timestamped(Apply(s, step))
  {
  }

  lemma {:induction false} TimestampedRun(s: State, run: Run)
    requires Timestamped(s) && Valid(s, run)
    ensures Timestamped(Exec(s, run))
    decreases |run|
  {
    if run != [] {
      if SetsUp(run[0]) || Hibernates(run[0]) {
        TimestampedSetupStep(s, run[0]);
      } else {
        TimestampedOtherStep(s, run[0]);
      }
      TimestampedRun(Apply(s, run[0]), run[1..]);
    }
  }

  /** Without claims and writes a row that ends up terminating was the same row before. */
  lemma {:induction false} UntouchedStep(s: State, step: Step, id: Id)
    requires Safety.WellFormed(s) && Enabled(s, step) && !Touches(s, step, id) && id in s.recorded
    ensures
      var t := Apply(s, step);
      && s.now <= t.now && id in t.recorded
      && (id in t.rows && t.rows[id].state == Terminating ==> id in s.rows && s.rows[id] == t.rows[id])
  {
  }

  lemma {:induction false} UntouchedRun(s: State, run: Run, id: Id)
    requires Safety.Safe(s) && Valid(s, run) && Untouched(s, run, id) && id in s.recorded
    ensures
      var t := Exec(s, run);
      id in t.rows && t.rows[id].state == Terminating ==> id in s.rows && s.rows[id] == t.rows[id]
    decreases |run|
  {
    if run != [] {
      UntouchedStep(s, run[0], id);
      Safety.OneStep(s, run[0]);
      Safety.SafeRun(s, [run[0]]);
      UntouchedRun(Apply(s, run[0]), run[1..], id);
    }
  }

  lemma {:induction false} RecordedForGood(s: State, run: Run, id: Id)
    requires Valid(s, run) && id in s.recorded
    ensures id in Exec(s, run).recorded
    decreases |run|
  {
    if run != [] { RecordedForGood(Apply(s, run[0]), run[1..], id); }
  }

  /** A failed destroy is retried. The driver answers and reports an instance of its batch failed;
      whatever everybody does then, and when nothing has been written to its row for two minutes,
      the instance is one that the next sweep hands to the driver, unless its VM is gone, its row
      fell to the age limit, or a late write took it out of "terminating". */
  lemma {:induction false} FailedDestroyIsRetried(s: State, job: JobId, failed: set<Id>, first: Run, rest: Run, id: Id,
                                                  labels: Id -> Labels, limits: Limits)
    requires Safety.Safe(s) && Timestamped(s) && Enabled(s, DriverReturns(job, failed))
    requires id in s.jobs[job].batch && id in failed && id in s.recorded
    requires Valid(Apply(s, DriverReturns(job, failed)), first)
    requires Valid(Exec(Apply(s, DriverReturns(job, failed)), first), rest)
    requires Untouched(Exec(Apply(s, DriverReturns(job, failed)), first), rest, id)
    ensures
      var u := Exec(Apply(s, DriverReturns(job, failed)), first);
      var t := Exec(u, rest);
      && (id in t.live && id !in t.forced ==> id in t.rows)
      && (Safety.Settled(s, id) && id in t.rows ==> t.rows[id].state == Terminating)
      && (id in t.rows && t.rows[id].state == Terminating && u.now + 120 < t.now ==>
            id in Claimable(t, Eligible(t, labels, limits), {InUse, Terminating}))
  {
    var answered := Apply(s, DriverReturns(job, failed));
    var u := Exec(answered, first);
    Safety.OneStep(s, DriverReturns(job, failed));
    Safety.SafeRun(s, [DriverReturns(job, failed)]);
    Safety.SafeRun(answered, first);
    Safety.SafeRun(u, rest);
    RecordedForGood(answered, first, id);
    RecordedForGood(u, rest, id);
    TimestampedRun(s, [DriverReturns(job, failed)]);
    TimestampedRun(answered, first);
    UntouchedRun(u, rest, id);
    if Safety.Settled(s, id) {
      Safety.TerminatingAbsorbs(s, [DriverReturns(job, failed)], id);
      Safety.TerminatingAbsorbs(answered, first, id);
      Safety.TerminatingAbsorbs(u, rest, id);
    }
  }

  /** And not sooner: a claim gives the driver two minutes. Until then, and while nobody writes to the
      row, no other sweep takes the instance on, unless it is beyond the busy limit anyway. */
  lemma {:induction false} ClaimRestsTwoMinutes(s: State, job: JobId, ids: set<Id>, allowed: set<InstanceState>,
                                                run: Run, id: Id, labels: Id -> Labels, limits: Limits)
    requires Safety.Safe(s) && Enabled(s, ClaimRows(job, ids, allowed)) && id in ids && Accepted(limits)
    requires Valid(Apply(s, ClaimRows(job, ids, allowed)), run)
    requires Untouched(Apply(s, ClaimRows(job, ids, allowed)), run, id)
    ensures
      var t := Exec(Apply(s, ClaimRows(job, ids, allowed)), run);
      id in t.rows && t.rows[id].state == Terminating && t.now <= s.now + 120 ==>
        && t.rows[id].started == s.rows[id].started
        && (id in Eligible(t, labels, limits) ==>
              t.now - t.rows[id].started > limits.busy || t.now - t.rows[id].started > 7 * 24 * 3600)
  {
    var claimed := Apply(s, ClaimRows(job, ids, allowed));
    Safety.OneStep(s, ClaimRows(job, ids, allowed));
    Safety.SafeRun(s, [ClaimRows(job, ids, allowed)]);
    UntouchedRun(claimed, run, id);
  }

  lemma {:induction false} ClaimedByPurger(s: State, id: Id, job: JobId)
    requires Safety.Safe(s) && Safety.Settled(s, id) && id in s.rows && job !in s.jobs
    ensures Enabled(s, ClaimRows(job, {id}, {Terminating}))
    ensures
      var t := Apply(s, ClaimRows(job, {id}, {Terminating}));
      && Safety.Settled(t, id) && t.handed == s.handed && t.live == s.live
      && job in t.jobs && t.jobs[job] == Collecting({id})
  {
    assert s.rows[id].state in {Terminating};
    Safety.SettledStep(s, ClaimRows(job, {id}, {Terminating}), id);
    assert Batch(s, job) + {id} == {id};
  }

  lemma {:induction false} SafeAndTimestamped(run: Run)
    requires Valid(Init(Provisioning), run)
    ensures Safety.Safe(Exec(Init(Provisioning), run)) && Timestamped(Exec(Init(Provisioning), run))
  {
    Safety.SafeRun(Init(Provisioning), run);
    TimestampedRun(Init(Provisioning), run);
  }

  /** Given-out instances are covered: one whose job ended settles, a purger claims it, and the driver
      may report it failed. */
  lemma {:induction false} GivenOutCanFail(id: Id, job: JobId) returns (run: Run, t: State)
    ensures Valid(Init(Provisioning), run) && Exec(Init(Provisioning), run) == t
    ensures Safety.Safe(t) && Timestamped(t) && Safety.Settled(t, id)
    ensures id in t.handed && id in t.live && job in t.jobs && t.jobs[job] == Collecting({id})
    ensures Enabled(t, DriverReturns(job, {id}))
  {
    var before, s := Safety.GivenOutSettles(id);
    SafeAndTimestamped(before);
    ClaimedByPurger(s, id, job);
    run, t := Then(Init(Provisioning), before, s, ClaimRows(job, {id}, {Terminating}));
    SafeAndTimestamped(run);
  }
}
