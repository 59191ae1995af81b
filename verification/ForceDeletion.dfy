/** When the age limit may drop the row of an instance. */
module ForceDeletion {
  import opened InstanceProtocol
  import Safety = InstanceSafety

  /** Along the run the row of this instance is dropped for its age only later than twice the age
      limit after `birth`. */
  predicate OnlyLate(s: State, run: Run, id: Id, birth: int)
    requires Valid(s, run)
    decreases |run|
  {
    run == [] || (LateStep(s, run[0], id, birth) && OnlyLate(Apply(s, run[0]), run[1..], id, birth))
  }

  predicate LateStep(s: State, step: Step, id: Id, birth: int) {
    step.ForceDelete? && id in step.ids ==> s.now > birth + 2 * step.maxAge
  }

  /** No row, and no write still to come, gives this instance a start time before its birth. */
  ghost predicate Aged(s: State, id: Id, birth: int) {
    && birth <= s.now && (id in s.rows ==> birth <= s.rows[id].started)
    && (forall r | r in s.copies && s.copies[r].id == id :: birth <= s.copies[r].row.started)
    && (id in s.goroutines && !s.goroutines[id].Ready? ==> birth <= s.goroutines[id].row.started)
  }

  lemma {:induction false} AgedSetupStep(s: State, step: Step, id: Id, birth: int)
    requires Aged(s, id, birth) && Enabled(s, step) && SetsUp(step)
    ensures Aged(Apply(s, step), id, birth)
  {
  }

  lemma {:induction false} AgedSleepStep(s: State, step: Step, id: Id, birth: int)
    requires Aged(s, id, birth) && Enabled(s, step) && Hibernates(step)
    ensures Aged(Apply(s, step), id, birth)
  {
  }

  lemma {:induction false} AgedOtherStep(s: State, step: Step, id: Id, birth: int)
    requires Aged(s, id, birth) && Enabled(s, step) && !SetsUp(step) && !Hibernates(step)
    requires step != RequestTerminate(id)
    ensures Aged(Apply(s, step), id, birth)
  {
  }

  lemma {:induction false} AgedStep(s: State, step: Step, id: Id, birth: int)
    requires Aged(s, id, birth) && Enabled(s, step) && step != RequestTerminate(id)
    ensures Aged(Apply(s, step), id, birth) && LateStep(s, step, id, birth)
  {
    if SetsUp(step) {
      AgedSetupStep(s, step, id, birth);
    } else if Hibernates(step) {
      AgedSleepStep(s, step, id, birth);
    } else {
      AgedOtherStep(s, step, id, birth);
    }
  }

  lemma {:induction false} AgedRun(s: State, run: Run, id: Id, birth: int)
    requires Aged(s, id, birth) && Valid(s, run) && RequestTerminate(id) !in run
    ensures OnlyLate(s, run, id, birth)
    decreases |run|
  {
    if run != [] {
      assert run[0] in run && forall step | step in run[1..] :: step in run;
      AgedStep(s, run[0], id, birth);
      AgedRun(Apply(s, run[0]), run[1..], id, birth);
    }
  }

  /** Whatever runners and requests do to an instance created from now on, the age limit drops its row
      only when the instance is older than twice the limit, if and only if no clean-up request
      describes the instance itself. */
  lemma {:induction false} ForcedLateIff(s: State, id: Id, described: bool)
    requires Safety.Safe(s) && id !in s.born && 0 < s.now
    ensures
      (forall run | Valid(s, run) && (RequestTerminate(id) in run ==> described) :: OnlyLate(s, run, id, s.now))
      <==> !described
  {
    if described {
      var run := DescribedIsForcedEarly(s, id, 1);
      assert Valid(s, run) && !OnlyLate(s, run, id, s.now);
    } else {
      forall run | Valid(s, run) && RequestTerminate(id) !in run ensures OnlyLate(s, run, id, s.now) {
        AgedRun(s, run, id, s.now);
      }
    }
  }

  /** The same holds from every hand-out on: the instance starts anew, however long it had been warm,
      and its request is told the truth about whether it sleeps. */
  lemma {:induction false} HandOutStartsAnew(s: State, id: Id, request: RequestId, run: Run)
    requires Safety.Safe(s) && s.stamp != Created && Enabled(s, HotClaim(id, request))
    requires Valid(Apply(s, HotClaim(id, request)), run) && RequestTerminate(id) !in run
    ensures OnlyLate(Apply(s, HotClaim(id, request)), run, id, s.now)
    ensures
      var t := Apply(s, HotClaim(id, request));
      && id in t.rows && t.rows[id].state == InUse && (t.rows[id].hibernated <==> id in t.asleep)
      && request in t.copies && t.copies[request] == Copy(id, t.rows[id])
  {
    var t := Apply(s, HotClaim(id, request));
    assert forall r | r in s.copies :: s.copies[r].id != id;
    AgedRun(t, run, id, s.now);
  }

  lemma {:induction false} OnlyLateAppend(s: State, run: Run, step: Step, id: Id, birth: int)
    requires Valid(s, run) && Enabled(Exec(s, run), step)
    ensures Valid(s, run + [step])
    ensures OnlyLate(s, run + [step], id, birth) ==> LateStep(Exec(s, run), step, id, birth)
    decreases |run|
  {
    ValidAppend(s, run, step);
    if run == [] {
      assert (run + [step])[1..] == [];
    } else {
      assert (run + [step])[1..] == run[1..] + [step];
      OnlyLateAppend(Apply(s, run[0]), run[1..], step, id, birth);
    }
  }

  /** A clean-up request that describes the instance itself writes back a row without a start
      time, so a driver failure is not retried: a sweep at any later time beyond twice the age limit
      may drop the row while the VM is still there, however young it is. */
  lemma {:induction false} RequestTerminateVoidsRetries(s: State, id: Id, maxAge: int) returns (run: Run)
    requires Safety.Safe(s) && id in s.rows && id in s.live && 0 < maxAge && 2 * maxAge < s.now
    ensures run == [RequestTerminate(id), ForceDelete({id}, maxAge)] && Valid(s, run)
    ensures
      var t := Exec(s, run);
      id in t.live && id !in t.rows && id in t.forced && t.now == s.now
  {
    var t;
    run, t := Then(s, [], s, RequestTerminate(id));
    run, t := Then(s, run, t, ForceDelete({id}, maxAge));
  }

  lemma {:induction false} StoredAndWaited(s: State, id: Id, wait: nat) returns (run: Run, t: State)
    requires id !in s.born
    ensures run == [CreateVm(id, Warm), StoreRow(id), Tick(wait)] && Valid(s, run) && Exec(s, run) == t
    ensures id in t.rows && id in t.born && id in t.live && t.now == s.now + wait
  {
    run, t := Then(s, [], s, CreateVm(id, Warm));
    run, t := Then(s, run, t, StoreRow(id));
    run, t := Then(s, run, t, Tick(wait));
  }

  lemma {:induction false} StoredThenDescribed(s: State, id: Id, wait: nat) returns (run: Run, t: State)
    requires id !in s.born
    ensures run == [CreateVm(id, Warm), StoreRow(id), Tick(wait), RequestTerminate(id)]
    ensures Valid(s, run) && Exec(s, run) == t
    ensures id in t.rows && t.rows[id].started == 0 && id in t.live && t.now == s.now + wait
  {
    run, t := StoredAndWaited(s, id, wait);
    run, t := Then(s, run, t, RequestTerminate(id));
  }

  /** In particular for an instance created only now, within twice the limit of its birth. */
  lemma {:induction false} DescribedIsForcedEarly(s: State, id: Id, maxAge: int) returns (run: Run)
    requires Safety.Safe(s) && id !in s.born && 0 < s.now && 0 < maxAge
    ensures run == [CreateVm(id, Warm), StoreRow(id), Tick(2 * maxAge), RequestTerminate(id), ForceDelete({id}, maxAge)]
    ensures Valid(s, run) && !OnlyLate(s, run, id, s.now)
    ensures id in Exec(s, run).live && id !in Exec(s, run).rows
  {
    var t;
    run, t := StoredThenDescribed(s, id, 2 * maxAge);
    OnlyLateAppend(s, run, ForceDelete({id}, maxAge), id, s.now);
    run, t := Then(s, run, t, ForceDelete({id}, maxAge));
  }
}
