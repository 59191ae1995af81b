/** Safety of every run of the instance protocol. */
module InstanceSafety {
  import opened InstanceProtocol

  /** Ids are consistent: a row, a goroutine or a copy only exists for an id that was stored. */
  ghost predicate WellFormed(s: State) {
    && s.rows.Keys <= s.recorded <= s.born
    && s.live <= s.born
    && s.pending.Keys <= s.born && s.pending.Keys !! s.recorded
    && s.goroutines.Keys <= s.recorded
    && (forall id | id in s.goroutines && s.goroutines[id].Settling? :: s.goroutines[id].row.state == Created)
    && s.handed + s.owned <= s.recorded
    && (forall r | r in s.copies :: s.copies[r].id in s.handed + s.owned)
    && (forall j | j in s.jobs :: (if s.jobs[j].Collecting? then s.jobs[j].batch else s.jobs[j].gone) <= s.born)
  }

  /** The goroutine still has a "created" write ahead of it. */
  predicate Busy(s: State, id: Id) {
    id in s.goroutines && !s.goroutines[id].Ready?
  }

  /** A row that can be claimed was never given out, and no pending write can make it claimable again. */
  ghost predicate Exclusive(s: State) {
    && (forall id | id in s.rows && s.rows[id].state == Created :: id !in s.handed + s.owned)
    && (forall r | r in s.copies :: s.copies[r].row.state != Created)
    && (forall id | Busy(s, id) :: id !in s.handed + s.owned)
    && (forall id | Busy(s, id) && id in s.rows :: s.rows[id].state != Created)
  }

  /** The is_hibernated flag of a claimable row, and of every write that makes one, is the truth. */
  ghost predicate FlagTruthful(s: State) {
    && (forall id | id in s.rows && s.rows[id].state == Created :: s.rows[id].hibernated <==> id in s.asleep)
    && (forall id | Busy(s, id) :: s.goroutines[id].row.hibernated <==> id in s.asleep)
    && s.asleep <= s.recorded
  }

  /** A VM that got a row and still exists has its row, unless the age limit removed it. */
  ghost predicate Covered(s: State) {
    && (forall id | id in s.recorded && id in s.live :: id in s.rows || id in s.forced)
    && (forall j, id | j in s.jobs && s.jobs[j].Removing? && id in s.jobs[j].gone :: id !in s.live)
  }

  lemma {:induction false} WellFormedSetupStep(s: State, step: Step)
    requires WellFormed(s) && Enabled(s, step) && SetsUp(step)
    ensures WellFormed(Apply(s, step))
  {
  }

  lemma {:induction false} WellFormedSleepStep(s: State, step: Step)
    requires WellFormed(s) && Enabled(s, step) && Hibernates(step)
    ensures WellFormed(Apply(s, step))
  {
  }

  lemma {:induction false} WellFormedOtherStep(s: State, step: Step)
    requires WellFormed(s) && Enabled(s, step) && !SetsUp(step) && !Hibernates(step)
    ensures WellFormed(Apply(s, step))
  {
  }

  lemma {:induction false} WellFormedStep(s: State, step: Step)
    requires WellFormed(s) && Enabled(s, step)
    ensures WellFormed(Apply(s, step))
  {
    if SetsUp(step) {
      WellFormedSetupStep(s, step);
    } else if Hibernates(step) {
      WellFormedSleepStep(s, step);
    } else {
      WellFormedOtherStep(s, step);
    }
  }

  lemma {:induction false} ExclusiveSetupStep(s: State, step: Step)
    requires WellFormed(s) && Exclusive(s) && s.stamp != Created && Enabled(s, step) && SetsUp(step)
    ensures Exclusive(Apply(s, step))
  {
  }

  lemma {:induction false} ExclusiveSleepStep(s: State, step: Step)
    requires WellFormed(s) && Exclusive(s) && s.stamp != Created && Enabled(s, step) && Hibernates(step)
    ensures Exclusive(Apply(s, step))
  {
  }

  lemma {:induction false} ExclusiveOtherStep(s: State, step: Step)
    requires WellFormed(s) && Exclusive(s) && s.stamp != Created && Enabled(s, step) && !SetsUp(step) &&
      !Hibernates(step)
    ensures Exclusive(Apply(s, step))
  {
  }

  lemma {:induction false} ExclusiveStep(s: State, step: Step)
    requires WellFormed(s) && Exclusive(s) && s.stamp != Created && Enabled(s, step)
    ensures Exclusive(Apply(s, step))
  {
    if SetsUp(step) {
      ExclusiveSetupStep(s, step);
    } else if Hibernates(step) {
      ExclusiveSleepStep(s, step);
    } else {
      ExclusiveOtherStep(s, step);
    }
  }

  lemma {:induction false} FlagTruthfulSetupStep(s: State, step: Step)
    requires WellFormed(s) && Exclusive(s) && FlagTruthful(s) && s.stamp != Created && Enabled(s, step) && SetsUp(step)
    ensures FlagTruthful(Apply(s, step))
  {
  }

  lemma {:induction false} FlagTruthfulSleepStep(s: State, step: Step)
    requires WellFormed(s) && Exclusive(s) && FlagTruthful(s) && s.stamp != Created && Enabled(s, step) &&
      Hibernates(step)
    ensures FlagTruthful(Apply(s, step))
  {
  }

  lemma {:induction false} FlagTruthfulOtherStep(s: State, step: Step)
    requires WellFormed(s) && Exclusive(s) && FlagTruthful(s) && s.stamp != Created && Enabled(s, step) &&
      !SetsUp(step) && !Hibernates(step)
    ensures FlagTruthful(Apply(s, step))
  {
  }

  lemma {:induction false} FlagTruthfulStep(s: State, step: Step)
    requires WellFormed(s) && Exclusive(s) && FlagTruthful(s) && s.stamp != Created && Enabled(s, step)
    ensures FlagTruthful(Apply(s, step))
  {
    if SetsUp(step) {
      FlagTruthfulSetupStep(s, step);
    } else if Hibernates(step) {
      FlagTruthfulSleepStep(s, step);
    } else {
      FlagTruthfulOtherStep(s, step);
    }
  }

  lemma {:induction false} CoveredSetupStep(s: State, step: Step)
    requires WellFormed(s) && Covered(s) && Enabled(s, step) && SetsUp(step)
    ensures Covered(Apply(s, step))
  {
  }

  lemma {:induction false} CoveredSleepStep(s: State, step: Step)
    requires WellFormed(s) && Covered(s) && Enabled(s, step) && Hibernates(step)
    ensures Covered(Apply(s, step))
  {
  }

  lemma {:induction false} CoveredOtherStep(s: State, step: Step)
    requires WellFormed(s) && Covered(s) && Enabled(s, step) && !SetsUp(step) && !Hibernates(step)
    ensures Covered(Apply(s, step))
  {
  }

  lemma {:induction false} CoveredStep(s: State, step: Step)
    requires WellFormed(s) && Covered(s) && Enabled(s, step)
    ensures Covered(Apply(s, step))
  {
    if SetsUp(step) {
      CoveredSetupStep(s, step);
    } else if Hibernates(step) {
      CoveredSleepStep(s, step);
    } else {
      CoveredOtherStep(s, step);
    }
  }

  ghost predicate Safe(s: State) {
    WellFormed(s) && Covered(s) && (s.stamp != Created ==> Exclusive(s) && FlagTruthful(s))
  }

  lemma {:induction false} SafeRun(s: State, run: Run)
    requires Safe(s) && Valid(s, run)
    ensures Safe(Exec(s, run)) && Exec(s, run).stamp == s.stamp
    decreases |run|
  {
    if run != [] {
      WellFormedStep(s, run[0]);
      CoveredStep(s, run[0]);
      if s.stamp != Created {
        ExclusiveStep(s, run[0]);
        FlagTruthfulStep(s, run[0]);
      }
      SafeRun(Apply(s, run[0]), run[1..]);
    }
  }

  // ---------- Exclusive hand-out ----------

  /** No instance id is taken from the hot pool twice. */
  ghost predicate ClaimsOnce(run: Run) {
    forall i, j | 0 <= i < j < |run| && run[i].HotClaim? && run[j].HotClaim? :: run[i].id != run[j].id
  }

  lemma {:induction false} NoSecondClaim(s: State, run: Run)
    requires Safe(s) && s.stamp != Created && Valid(s, run)
    ensures forall j | 0 <= j < |run| && run[j].HotClaim? :: run[j].id !in s.handed
    ensures ClaimsOnce(run)
    decreases |run|
  {
    if run != [] {
      SafeRun(s, [run[0]]);
      var s' := Apply(s, run[0]);
      assert Safe(s') && s'.stamp == s.stamp by {
        SafeRun(s, [run[0]]);
        assert Exec(s, [run[0]]) == s';
      }
      NoSecondClaim(s', run[1..]);
      forall j | 0 <= j < |run| && run[j].HotClaim? ensures run[j].id !in s.handed {
        if j > 0 { assert run[j] == run[1..][j - 1]; }
      }
      forall i, j | 0 <= i < j < |run| && run[i].HotClaim? && run[j].HotClaim?
        ensures run[i].id != run[j].id
      {
        assert run[j] == run[1..][j - 1];
        if i > 0 { assert run[i] == run[1..][i - 1]; }
      }
    }
  }

  /** A new instance already stamped "created" is claimed while its goroutine is still connecting. */
  lemma {:induction false} ClaimedWhileNew(id: Id) returns (run: Run, t: State)
    ensures run == [CreateVm(id, Warm), StoreRow(id), HotClaim(id, 0)]
    ensures Valid(Init(Created), run) && Exec(Init(Created), run) == t
    ensures id in t.rows && id in t.goroutines && t.goroutines[id].Connecting? && t.copies.Keys == {0}
  {
    var s := Init(Created);
    run, t := Then(s, [], s, CreateVm(id, Warm));
    run, t := Then(s, run, t, StoreRow(id));
    run, t := Then(s, run, t, HotClaim(id, 0));
  }

  /** The goroutine's write frees it again: five steps give one instance out twice. */
  lemma {:induction false} DoubleHandOut(id: Id)
    ensures
      var run := [CreateVm(id, Warm), StoreRow(id), HotClaim(id, 0), ConnectSucceeds(id), HotClaim(id, 1)];
      Valid(Init(Created), run) && !ClaimsOnce(run)
  {
    var s := Init(Created);
    var run, t := ClaimedWhileNew(id);
    run, t := Then(s, run, t, ConnectSucceeds(id));
    run, t := Then(s, run, t, HotClaim(id, 1));
    assert run == [CreateVm(id, Warm), StoreRow(id), HotClaim(id, 0), ConnectSucceeds(id), HotClaim(id, 1)];
    assert run[2].id == run[4].id;
  }

  /** Over every interleaving each id is claimed from the hot pool at most once, and this rests
      on exactly one thing: drivers must not report a new instance as already "created". */
  lemma {:induction false} ExclusiveHandOut(stamp: InstanceState)
    ensures (forall run | Valid(Init(stamp), run) :: ClaimsOnce(run)) <==> stamp != Created
  {
    if stamp != Created {
      forall run | Valid(Init(stamp), run) ensures ClaimsOnce(run) {
        NoSecondClaim(Init(stamp), run);
      }
    } else {
      DoubleHandOut("i");
    }
  }

  /** A given-out instance never becomes claimable again, so the background "created" writes
      only ever land on rows nobody was given; and what is claimed carries a truthful
      is_hibernated flag, which decides whether the request wakes the VM. */
  lemma {:induction false} HandedStaysHanded(stamp: InstanceState, run: Run, id: Id)
    requires stamp != Created && Valid(Init(stamp), run)
    ensures
      var s := Exec(Init(stamp), run);
      && (id in s.rows && id in s.handed + s.owned ==> s.rows[id].state != Created && !Busy(s, id))
      && (id in s.rows && s.rows[id].state == Created ==> (s.rows[id].hibernated <==> id in s.asleep))
  {
    SafeRun(Init(stamp), run);
  }

  // ---------- Destroy before forget ----------

  /** Whatever the interleaving and whatever drivers fail, a VM that ever got a row and still
      exists has its row, unless the age limit force-deleted it. */
  lemma {:induction false} DestroyBeforeForget(stamp: InstanceState, run: Run, id: Id)
    requires Valid(Init(stamp), run)
    ensures
      var s := Exec(Init(stamp), run);
      id in s.recorded && id in s.live && id !in s.forced ==> id in s.rows
  {
    SafeRun(Init(stamp), run);
  }

  // ---------- "terminating" ----------

  /** Nobody holds anything that could move this row out of "terminating". */
  ghost predicate Settled(s: State, id: Id) {
    && id in s.recorded && !Busy(s, id)
    && (id in s.rows ==> s.rows[id].state == Terminating)
    && (forall r | r in s.copies && s.copies[r].id == id :: s.copies[r].row.state == Terminating)
  }

  lemma {:induction false} SettledSetupStep(s: State, step: Step, id: Id)
    requires WellFormed(s) && Settled(s, id) && Enabled(s, step) && SetsUp(step)
    ensures Settled(Apply(s, step), id)
  {
  }

  lemma {:induction false} SettledSleepStep(s: State, step: Step, id: Id)
    requires WellFormed(s) && Settled(s, id) && Enabled(s, step) && Hibernates(step)
    ensures Settled(Apply(s, step), id)
  {
  }

  lemma {:induction false} SettledOtherStep(s: State, step: Step, id: Id)
    requires WellFormed(s) && Settled(s, id) && Enabled(s, step) && !SetsUp(step) && !Hibernates(step)
    ensures Settled(Apply(s, step), id)
  {
  }

  lemma {:induction false} SettledStep(s: State, step: Step, id: Id)
    requires WellFormed(s) && Settled(s, id) && Enabled(s, step)
    ensures Settled(Apply(s, step), id)
  {
    if SetsUp(step) {
      SettledSetupStep(s, step, id);
    } else if Hibernates(step) {
      SettledSleepStep(s, step, id);
    } else {
      SettledOtherStep(s, step, id);
    }
  }

  /** Once no goroutine write and no older copy is outstanding, "terminating" is absorbing. */
  lemma {:induction false} TerminatingAbsorbs(s: State, run: Run, id: Id)
    requires Safe(s) && Settled(s, id) && Valid(s, run)
    ensures Settled(Exec(s, run), id)
    ensures forall j | 0 <= j < |run| && run[j].HotClaim? :: run[j].id != id
    decreases |run|
  {
    if run != [] {
      assert Exec(s, [run[0]]) == Apply(s, run[0]);
      SafeRun(s, [run[0]]);
      SettledStep(s, run[0], id);
      TerminatingAbsorbs(Apply(s, run[0]), run[1..], id);
      forall j | 0 <= j < |run| && run[j].HotClaim? ensures run[j].id != id {
        if j > 0 { assert run[j] == run[1..][j - 1]; }
      }
    }
  }

  ghost predicate LeavesTerminating(s: State, run: Run, id: Id) {
    Valid(s, run) && id in Exec(s, run).rows && Exec(s, run).rows[id].state != Terminating
  }

  lemma {:induction false} OneStep(s: State, step: Step)
    requires Enabled(s, step)
    ensures Valid(s, [step]) && Exec(s, [step]) == Apply(s, step)
  {
    ValidCons(s, step, []);
    assert [step] + [] == [step];
  }

  /** The exact moment at which a terminating row is safe from resurrection. */
  lemma {:induction false} TerminatingAbsorbsExactly(s: State, id: Id)
    requires Safe(s) && id in s.rows && s.rows[id].state == Terminating
    ensures (exists run :: LeavesTerminating(s, run, id)) <==> !Settled(s, id)
  {
    if Settled(s, id) {
      forall run ensures !LeavesTerminating(s, run, id) {
        if Valid(s, run) { TerminatingAbsorbs(s, run, id); }
      }
    } else if r :| r in s.copies && s.copies[r].id == id && s.copies[r].row.state != Terminating {
      OneStep(s, WriteCopy(r));
      assert LeavesTerminating(s, [WriteCopy(r)], id);
    } else {
      assert Busy(s, id);
      match s.goroutines[id]
      case Connecting(_) =>
        OneStep(s, ConnectSucceeds(id));
        assert LeavesTerminating(s, [ConnectSucceeds(id)], id);
      case Settling(row) =>
        OneStep(s, HibernateSettles(id));
        assert LeavesTerminating(s, [HibernateSettles(id)], id);
      case Sleeping(_, _) =>
        var s' := Apply(s, DriverHibernates(id));
        OneStep(s', HibernateSettles(id));
        ValidCons(s, DriverHibernates(id), [HibernateSettles(id)]);
        assert LeavesTerminating(s, [DriverHibernates(id)] + [HibernateSettles(id)], id);
    }
  }

  // ---------- Witnesses ----------

  lemma {:induction false} Stored(s: State, id: Id) returns (run: Run, t: State)
    requires id !in s.born && id !in s.pending && s.stamp == Provisioning
    ensures Valid(s, run) && Exec(s, run) == t
    ensures
      var row := Row(Provisioning, s.now, false, s.now);
      t == s.(rows := s.rows[id := row], born := s.born + {id}, live := s.live + {id},
              recorded := s.recorded + {id}, goroutines := s.goroutines[id := Connecting(row)])
  {
    run, t := Then(s, [], s, CreateVm(id, Warm));
    assert t.pending - {id} == s.pending;
    run, t := Then(s, run, t, StoreRow(id));
  }

  lemma {:induction false} WarmUp(s: State, id: Id) returns (run: Run, t: State)
    requires id !in s.born && id !in s.pending && s.stamp == Provisioning
    ensures Valid(s, run) && Exec(s, run) == t
    ensures t == s.(rows := s.rows[id := Row(Created, s.now, false, s.now)], born := s.born + {id},
                    live := s.live + {id}, recorded := s.recorded + {id}, goroutines := s.goroutines[id := Ready])
  {
    run, t := Stored(s, id);
    var row := Row(Provisioning, s.now, false, s.now);
    assert s.rows[id := row][id := row.(state := Created)] == s.rows[id := row.(state := Created)];
    assert s.goroutines[id := Connecting(row)][id := Ready] == s.goroutines[id := Ready];
    run, t := Then(s, run, t, ConnectSucceeds(id));
  }

  lemma {:induction false} PutToSleep(s: State, id: Id) returns (run: Run, t: State)
    requires id in s.rows && s.rows[id].state == Created && id in s.goroutines && s.goroutines[id].Ready?
    ensures Valid(s, run) && Exec(s, run) == t
    ensures t == s.(rows := s.rows[id := s.rows[id].(hibernated := true, updated := s.now)], asleep := s.asleep + {id},
                    goroutines := s.goroutines - {id})
  {
    run, t := Then(s, [], s, HibernateClaim(id));
    run, t := Then(s, run, t, DriverRefuses(id));
    run, t := Then(s, run, t, DriverHibernates(id));
    run, t := Then(s, run, t, HibernateSettles(id));
    assert t.goroutines == s.goroutines - {id};
    assert t.rows == s.rows[id := s.rows[id].(hibernated := true, updated := s.now)];
  }

  lemma {:induction false} Targeted(s: State, id: Id, job: JobId) returns (run: Run, t: State)
    requires id in s.born && id in s.live && job !in s.jobs
    ensures Valid(s, run) && Exec(s, run) == t
    ensures t == s.(jobs := s.jobs[job := Collecting({id})], live := s.live - {id})
  {
    assert Batch(s, job) + {id} == {id};
    run, t := Then(s, [], s, Target(job, id));
    run, t := Then(s, run, t, VmGone(id));
  }

  lemma {:induction false} Kill(s: State, id: Id, job: JobId) returns (run: Run, t: State)
    requires id in s.born && id in s.live && job !in s.jobs
    ensures Valid(s, run) && Exec(s, run) == t
    ensures t == s.(jobs := s.jobs[job := Removing({id})], live := s.live - {id})
  {
    run, t := Targeted(s, id, job);
    assert {id} - {} == {id} && s.jobs[job := Collecting({id})][job := Removing({id})] == s.jobs[job := Removing({id})];
    run, t := Then(s, run, t, DriverReturns(job, {}));
  }

  lemma {:induction false} Destroy(s: State, id: Id, job: JobId) returns (run: Run, t: State)
    requires id in s.born && id in s.live && job !in s.jobs
    ensures Valid(s, run) && Exec(s, run) == t
    ensures t == s.(rows := s.rows - {id}, live := s.live - {id})
  {
    run, t := Kill(s, id, job);
    run, t := Then(s, run, t, RemoveRow(job, id));
    run, t := Then(s, run, t, JobEnds(job));
    assert t.jobs == s.jobs;
  }

  /** An instance is created, warmed up and hibernated. */
  lemma {:induction false} WarmAsleep(s: State, id: Id) returns (run: Run, t: State)
    requires id !in s.born && id !in s.pending && id !in s.goroutines && s.stamp == Provisioning
    ensures Valid(s, run) && Exec(s, run) == t && id in t.born
    ensures t.rows == s.rows[id := Row(Created, s.now, true, s.now)] && t.live == s.live + {id}
    ensures t.jobs == s.jobs && t.goroutines == s.goroutines && t.handed == s.handed && t.forced == s.forced
    ensures t.copies == s.copies
  {
    var warm, s1 := WarmUp(s, id);
    var sleep, s2 := PutToSleep(s1, id);
    ValidConcat(s, warm, sleep);
    run, t := warm + sleep, s2;
    assert s.goroutines[id := Ready] - {id} == s.goroutines;
  }

  /** And given to a request. */
  lemma {:induction false} WarmAndClaim(s: State, id: Id, request: RequestId) returns (run: Run, t: State)
    requires WellFormed(s) && id !in s.born && s.stamp == Provisioning && request !in s.copies
    ensures Valid(s, run) && Exec(s, run) == t && HotClaim(id, request) in run
    ensures t.rows.Keys == s.rows.Keys + {id} && t.rows - {id} == s.rows && t.live == s.live + {id} && id in t.born
    ensures t.jobs == s.jobs && t.goroutines == s.goroutines && t.handed == s.handed + {id} && t.forced == s.forced
    ensures request in t.copies && t.copies - {request} == s.copies
    ensures t.copies[request].id == id && t.copies[request].row.updated <= t.now
  {
    assert id !in s.pending && id !in s.goroutines && id !in s.rows;
    var before, s2 := WarmAsleep(s, id);
    run, t := Then(s, before, s2, HotClaim(id, request));
    assert run[|run| - 1] == HotClaim(id, request);
    assert t.rows - {id} == s.rows;
  }

  /** The protocol is not safe by being stuck: from any state an unused id can be built, put to
      sleep, claimed and destroyed, and leaves neither a row nor a VM nor a copy behind. */
  lemma {:induction false} Lifecycle(s: State, id: Id, request: RequestId, job: JobId) returns (run: Run)
    requires WellFormed(s) && id !in s.born && request !in s.copies && job !in s.jobs && s.stamp == Provisioning
    ensures Valid(s, run) && HotClaim(id, request) in run
    ensures
      var t := Exec(s, run);
      && t.rows == s.rows && t.live == s.live && t.jobs == s.jobs && t.goroutines == s.goroutines
      && t.copies == s.copies && t.handed == s.handed + {id} && t.forced == s.forced
  {
    var claimed, s3 := WarmAndClaim(s, id, request);
    var destroy, s4 := Destroy(s3, id, job);
    ValidConcat(s, claimed, destroy);
    var t;
    run, t := Then(s, claimed + destroy, s4, DropCopy(request));
    assert HotClaim(id, request) in claimed && run == claimed + destroy + [DropCopy(request)];
    assert t.live == s.live by { assert id !in s.live; }
  }

  /** A terminating row settles: once its goroutine and the requests that hold the row are done,
      without writing again, nobody can move it any more. */
  lemma {:induction false} SettlesWhenAllEnd(s: State, id: Id) returns (run: Run, t: State)
    requires Safe(s) && id in s.rows && s.rows[id].state == Terminating
    ensures Valid(s, run) && Exec(s, run) == t && Settled(t, id)
    ensures t.rows == s.rows && t.live == s.live && t.handed == s.handed && t.jobs == s.jobs
  {
    run, t := [], s;
    if Busy(s, id) { run, t := Then(s, run, t, GoroutineDies(id)); }
    var left := s.copies.Keys;
    while left != {}
      invariant Valid(s, run) && Exec(s, run) == t && left == t.copies.Keys && !Busy(t, id)
      invariant t.rows == s.rows && t.live == s.live && t.handed == s.handed && t.jobs == s.jobs
      invariant t.recorded == s.recorded
      decreases left
    {
      var request :| request in left;
      run, t := Then(s, run, t, DropCopy(request));
      left := left - {request};
    }
  }

  /** So also for an instance that was given out: its job ends, the handler marks the row and is
      done with it. */
  lemma {:induction false} GivenOutSettles(id: Id) returns (run: Run, t: State)
    ensures Valid(Init(Provisioning), run) && Exec(Init(Provisioning), run) == t && HotClaim(id, 0) in run
    ensures id in t.handed && id in t.live && id in t.rows && t.rows[id].state == Terminating && Settled(t, id)
    ensures t.jobs == map[]
  {
    var s := Init(Provisioning);
    var claimed, s1 := WarmAndClaim(s, id, 0);
    SafeRun(s, claimed);
    var ended, s2 := MarkedByHolder(s1, id, 0);
    ValidConcat(s, claimed, ended);
    SafeRun(s, claimed + ended);
    var drops, s3 := SettlesWhenAllEnd(s2, id);
    ValidConcat(s, claimed + ended, drops);
    run, t := claimed + ended + drops, s3;
    assert HotClaim(id, 0) in claimed;
  }

  lemma {:induction false} MarkedByHolder(s: State, id: Id, request: RequestId) returns (run: Run, t: State)
    requires Safe(s) && id in s.rows && request in s.copies && s.copies[request].id == id
    requires s.copies[request].row.updated <= s.now
    ensures Valid(s, run) && Exec(s, run) == t
    ensures t.live == s.live && t.handed == s.handed && t.jobs == s.jobs
    ensures id in t.rows && t.rows[id].state == Terminating
  {
    run, t := Then(s, [], s, EditCopy(request, s.copies[request].row.(state := Terminating)));
    run, t := Then(s, run, t, WriteCopy(request));
  }

  /** An instance stays in provisioning for a while. */
  lemma {:induction false} StuckConnecting(id: Id, wait: nat) returns (run: Run, t: State)
    ensures run == [CreateVm(id, Warm), StoreRow(id), Tick(wait)]
    ensures Valid(Init(Provisioning), run) && Exec(Init(Provisioning), run) == t
    ensures t.rows == map[id := Row(Provisioning, 0, false, 0)] && t.live == {id} && t.handed == {}
    ensures t.goroutines == map[id := Connecting(Row(Provisioning, 0, false, 0))] && t.jobs == map[] && t.now == wait
    ensures t.copies == map[]
  {
    var s := Init(Provisioning);
    run, t := Then(s, [], s, CreateVm(id, Warm));
    run, t := Then(s, run, t, StoreRow(id));
    assert t.rows == map[id := Row(Provisioning, 0, false, 0)];
    run, t := Then(s, run, t, Tick(wait));
  }

  /** And a purger claims it. */
  lemma {:induction false} ClaimedWhileConnecting(id: Id, wait: nat) returns (run: Run, t: State)
    ensures run == [CreateVm(id, Warm), StoreRow(id), Tick(wait), ClaimRows(0, {id}, {Provisioning})]
    ensures Valid(Init(Provisioning), run) && Exec(Init(Provisioning), run) == t
    ensures t.rows == map[id := Row(Terminating, 0, false, wait)] && t.live == {id} && t.handed == {}
    ensures t.goroutines == map[id := Connecting(Row(Provisioning, 0, false, 0))]
    ensures t.jobs == map[0 := Collecting({id})] && t.now == wait && t.copies == map[]
  {
    var s := Init(Provisioning);
    run, t := StuckConnecting(id, wait);
    assert Batch(t, 0) + {id} == {id};
    run, t := Then(s, run, t, ClaimRows(0, {id}, {Provisioning}));
    assert t.rows == map[id := Row(Terminating, 0, false, wait)];
  }

  /** The late connect write frees it, and a request is given it. */
  lemma {:induction false} ClaimedThenHandedOut(id: Id, wait: nat) returns (run: Run, t: State)
    ensures run == [CreateVm(id, Warm), StoreRow(id), Tick(wait), ClaimRows(0, {id}, {Provisioning}),
                    ConnectSucceeds(id), HotClaim(id, 0)]
    ensures Valid(Init(Provisioning), run) && Exec(Init(Provisioning), run) == t
    ensures t.rows == map[id := Row(InUse, wait, false, wait)] && t.live == {id} && t.handed == {id}
    ensures t.jobs == map[0 := Collecting({id})]
  {
    var s := Init(Provisioning);
    run, t := ClaimedWhileConnecting(id, wait);
    run, t := Then(s, run, t, ConnectSucceeds(id));
    assert t.rows == map[id := Row(Created, 0, false, 0)] && t.jobs == map[0 := Collecting({id})];
    assert t.handed == {} && t.now == wait && t.copies == map[];
    run, t := Then(s, run, t, HotClaim(id, 0));
    assert t.rows == map[id := Row(InUse, wait, false, wait)] && t.handed == {id};
  }

  /** The purger's driver call then destroys the VM under the request. */
  lemma {:induction false} HandedOutThenDestroyed(id: Id, wait: nat) returns (run: Run, t: State)
    ensures run == [CreateVm(id, Warm), StoreRow(id), Tick(wait), ClaimRows(0, {id}, {Provisioning}),
                    ConnectSucceeds(id), HotClaim(id, 0), VmGone(id), DriverReturns(0, {})]
    ensures Valid(Init(Provisioning), run) && Exec(Init(Provisioning), run) == t
    ensures t.rows == map[id := Row(InUse, wait, false, wait)] && t.live == {} && t.handed == {id}
    ensures t.jobs == map[0 := Removing({id})]
  {
    var s := Init(Provisioning);
    run, t := ClaimedThenHandedOut(id, wait);
    run, t := Then(s, run, t, VmGone(id));
    assert t.live == {} && t.jobs[0].batch - {} == {id};
    run, t := Then(s, run, t, DriverReturns(0, {}));
  }

  /** Why "terminating" must be settled first: a purger claims an instance that is stuck in
      provisioning, the late connect write frees it, a request is given it, the purger's own destroy
      then removes the VM under the request, and its row, in use, is dropped with it. */
  lemma {:induction false} ResurrectedThenDestroyed(id: Id, wait: nat) returns (run: Run)
    ensures run == [CreateVm(id, Warm), StoreRow(id), Tick(wait), ClaimRows(0, {id}, {Provisioning}),
                    ConnectSucceeds(id), HotClaim(id, 0), VmGone(id), DriverReturns(0, {}), RemoveRow(0, id)]
    ensures Valid(Init(Provisioning), run) && Valid(Init(Provisioning), run[..6]) && Valid(Init(Provisioning), run[..8])
    ensures
      var given, destroyed := Exec(Init(Provisioning), run[..6]), Exec(Init(Provisioning), run[..8]);
      && given.rows == destroyed.rows == map[id := Row(InUse, wait, false, wait)] && id in given.handed
      && id in given.live && id !in destroyed.live
    ensures Exec(Init(Provisioning), run).rows == map[] && id in Exec(Init(Provisioning), run).handed
  {
    var first, second, t;
    first, t := ClaimedThenHandedOut(id, wait);
    second, t := HandedOutThenDestroyed(id, wait);
    run, t := Then(Init(Provisioning), second, t, RemoveRow(0, id));
    assert run[..8] == second && run[..6] == first;
    assert t.rows == map[];
  }
}
