/** A clean-up sweep lists a stage once, provided requests are quick to store their records. */
module ReservationSweeps {
  import opened Options
  import opened Reservations

  /** Requests store their record at most `delay` after the driver stamped the reservation, and
      sweeps leave records alone for at least `age`. */
  predicate Timely(s: State, run: Run, delay: nat, age: nat)
    requires Valid(s, run)
    decreases |run|
  {
    run == [] || (TimelyStep(s, run[0], delay, age) && Timely(Apply(s, run[0]), run[1..], delay, age))
  }

  predicate TimelyStep(s: State, step: Step, delay: nat, age: nat)
    requires Enabled(s, step)
  {
    && (step.CreateRecord? ==> s.now <= s.requests[step.proc].at + delay)
    && (step.SweepTerminating? ==> step.age >= age)
  }

  /** What a sweep has listed is terminating, gone, or too young for it. */
  ghost predicate SweepSound(s: State, w: Sweep, age: nat) {
    && w.cutoff + age <= s.now && Distinct(w.todo) && Distinct(w.listed)
    && (forall x | x in w.listed && x in s.records :: Passed(s.records[x], w.cutoff))
    && (forall x | x in w.listed :: x !in w.todo)
  }

  predicate Passed(record: Record, cutoff: int) {
    record.state == Terminating || record.createdAt >= cutoff
  }

  ghost predicate SweepsSound(s: State, age: nat) {
    forall p | p in s.sweeps :: SweepSound(s, s.sweeps[p], age)
  }

  predicate SweepsOn(step: Step, p: Proc) {
    match step
    case SweepTerminating(q, _, _, _) => q == p
    case SweepClaimFree(q, _) => q == p
    case SweepListInUse(q, _, _) => q == p
    case SweepLooks(q, _) => q == p
    case SweepClaimOrphan(q) => q == p
    case SweepSkip(q) => q == p
    case _ => false
  }

  /** What is left as it was for a sweep: it may have got later, and created records are too young. */
  ghost predicate Undisturbed(s: State, t: State, p: Proc)
    requires p in s.sweeps
  {
    var w := s.sweeps[p];
    && p in t.sweeps && t.sweeps[p] == w && s.now <= t.now
    && forall x | x in t.records && !Passed(t.records[x], w.cutoff) ::
         x in s.records && !Passed(s.records[x], w.cutoff)
  }

  lemma {:induction false} OthersRequesting(s: State, step: Step, p: Proc, delay: nat, age: nat)
    requires Enabled(s, step) && TimelyStep(s, step, delay, age) && delay <= age
    requires !SweepsOn(step, p) && p in s.sweeps && p in Apply(s, step).sweeps && Requests(step)
    requires s.sweeps[p].cutoff + age <= s.now
    ensures Undisturbed(s, Apply(s, step), p)
  {
  }

  lemma {:induction false} OthersSettingUp(s: State, step: Step, p: Proc, delay: nat, age: nat)
    requires Enabled(s, step) && TimelyStep(s, step, delay, age) && delay <= age
    requires !SweepsOn(step, p) && p in s.sweeps && p in Apply(s, step).sweeps && SetsUp(step)
    requires s.sweeps[p].cutoff + age <= s.now
    ensures Undisturbed(s, Apply(s, step), p)
  {
  }

  lemma {:induction false} OthersDestroying(s: State, step: Step, p: Proc, delay: nat, age: nat)
    requires Enabled(s, step) && TimelyStep(s, step, delay, age) && delay <= age
    requires !SweepsOn(step, p) && p in s.sweeps && p in Apply(s, step).sweeps && Destroys(step)
    requires s.sweeps[p].cutoff + age <= s.now
    ensures Undisturbed(s, Apply(s, step), p)
  {
  }

  lemma {:induction false} OthersSweeping(s: State, step: Step, p: Proc, delay: nat, age: nat)
    requires Enabled(s, step) && TimelyStep(s, step, delay, age) && delay <= age
    requires !SweepsOn(step, p) && p in s.sweeps && p in Apply(s, step).sweeps && Sweeps(step)
    requires s.sweeps[p].cutoff + age <= s.now
    ensures Undisturbed(s, Apply(s, step), p)
  {
  }

  lemma {:induction false} OthersEffect(s: State, step: Step, p: Proc, delay: nat, age: nat)
    requires Enabled(s, step) && TimelyStep(s, step, delay, age) && delay <= age
    requires !SweepsOn(step, p) && p in s.sweeps && p in Apply(s, step).sweeps
    requires s.sweeps[p].cutoff + age <= s.now
    ensures Undisturbed(s, Apply(s, step), p)
  {
    if Requests(step) {
      OthersRequesting(s, step, p, delay, age);
    } else if SetsUp(step) {
      OthersSettingUp(s, step, p, delay, age);
    } else if Destroys(step) {
      OthersDestroying(s, step, p, delay, age);
    } else {
      OthersSweeping(s, step, p, delay, age);
    }
  }

  lemma {:induction false} OthersKeepSweep(s: State, step: Step, p: Proc, delay: nat, age: nat)
    requires Enabled(s, step) && TimelyStep(s, step, delay, age) && delay <= age
    requires !SweepsOn(step, p) && p in s.sweeps && p in Apply(s, step).sweeps
    requires SweepSound(s, s.sweeps[p], age)
    ensures SweepSound(Apply(s, step), Apply(s, step).sweeps[p], age)
  {
    OthersEffect(s, step, p, delay, age);
    UndisturbedIsSound(s, Apply(s, step), p, age);
  }

  lemma {:induction false} UndisturbedIsSound(s: State, t: State, p: Proc, age: nat)
    requires p in s.sweeps && SweepSound(s, s.sweeps[p], age) && Undisturbed(s, t, p)
    ensures SweepSound(t, t.sweeps[p], age)
  {
    var w := s.sweeps[p];
    forall x | x in w.listed && x in t.records ensures Passed(t.records[x], w.cutoff) {
    }
  }

  /** Listing stages that are claimed in the same statement keeps a sweep sound: what it listed
      before is none of them. */
  lemma {:induction false} ListingMore(s: State, t: State, w: Sweep, v: Sweep, more: seq<Stage>, age: nat)
    requires SweepSound(s, w, age) && Distinct(more) && v.listed == w.listed + more && v.cutoff == w.cutoff
    requires t.now == s.now && t.records == Claimed(s.records, Elements(more))
    requires forall x | x in more :: x in s.records && x !in w.listed
    requires Distinct(v.todo) && forall x | x in v.todo :: x in w.todo && x !in more
    ensures SweepSound(t, v, age)
  {
    var n := |w.listed|;
    forall i, j | 0 <= i < j < |v.listed| ensures v.listed[i] != v.listed[j] {
      if i >= n {
        assert v.listed[i] == more[i - n] && v.listed[j] == more[j - n];
      } else if j >= n {
        assert v.listed[i] in w.listed && v.listed[j] == more[j - n] && more[j - n] in more;
      }
    }
  }

  lemma {:induction false} OwnSweepStep(s: State, step: Step, p: Proc, delay: nat, age: nat)
    requires Enabled(s, step) && TimelyStep(s, step, delay, age) && SweepsOn(step, p)
    requires p in s.sweeps ==> SweepSound(s, s.sweeps[p], age)
    ensures SweepSound(Apply(s, step), Apply(s, step).sweeps[p], age)
  {
    var t := Apply(s, step);
    match step
    case SweepClaimFree(_, found) =>
      assert forall x | x in found :: !Passed(s.records[x], s.sweeps[p].cutoff);
      ListingMore(s, t, s.sweeps[p], t.sweeps[p], found, age);
    case SweepClaimOrphan(_) =>
      var todo := s.sweeps[p].todo;
      assert Elements([todo[0]]) == {todo[0]};
      ListingMore(s, t, s.sweeps[p], t.sweeps[p], [todo[0]], age);
    case _ =>
  }

  lemma {:induction false} NoOtherStartsBeside(s: State, step: Step, p: Proc)
    requires Enabled(s, step) && !SweepsOn(step, p) && p in Apply(s, step).sweeps
    requires !Sweeps(step)
    ensures p in s.sweeps
  {
  }

  lemma {:induction false} NoOtherStartsSweeping(s: State, step: Step, p: Proc)
    requires Enabled(s, step) && !SweepsOn(step, p) && p in Apply(s, step).sweeps
    requires Sweeps(step)
    ensures p in s.sweeps
  {
  }

  lemma {:induction false} NoOtherStarts(s: State, step: Step, p: Proc)
    requires Enabled(s, step) && !SweepsOn(step, p) && p in Apply(s, step).sweeps
    ensures p in s.sweeps
  {
    if !Sweeps(step) {
      NoOtherStartsBeside(s, step, p);
    } else {
      NoOtherStartsSweeping(s, step, p);
    }
  }

  lemma {:induction false} SweepsSoundStep(s: State, step: Step, p: Proc, delay: nat, age: nat)
    requires SweepsSound(s, age) && Enabled(s, step) && TimelyStep(s, step, delay, age) && delay <= age
    requires p in Apply(s, step).sweeps
    ensures SweepSound(Apply(s, step), Apply(s, step).sweeps[p], age)
  {
    if SweepsOn(step, p) {
      OwnSweepStep(s, step, p, delay, age);
    } else {
      NoOtherStarts(s, step, p);
      OthersKeepSweep(s, step, p, delay, age);
    }
  }

  lemma {:induction false} SweepsSoundRun(s: State, run: Run, delay: nat, age: nat)
    requires SweepsSound(s, age) && Valid(s, run) && Timely(s, run, delay, age) && delay <= age
    ensures SweepsSound(Exec(s, run), age)
    decreases |run|
  {
    if run != [] {
      var t := Apply(s, run[0]);
      forall p | p in t.sweeps ensures SweepSound(t, t.sweeps[p], age) {
        SweepsSoundStep(s, run[0], p, delay, age);
      }
      SweepsSoundRun(t, run[1..], delay, age);
    }
  }

  /** With any number of concurrent runners, sweeps never list a stage twice if and only if requests
      store their records no later than the age a record must have to be swept. */
  lemma {:induction false} ListedOnceIff(delay: nat, age: nat)
    ensures (forall run, proc | Valid(INIT, run) && Timely(INIT, run, delay, age) && proc in Exec(INIT, run).sweeps ::
               Distinct(Exec(INIT, run).sweeps[proc].listed))
      <==> delay <= age
  {
    if delay <= age {
      forall run, proc | Valid(INIT, run) && Timely(INIT, run, delay, age) && proc in Exec(INIT, run).sweeps
        ensures Distinct(Exec(INIT, run).sweeps[proc].listed)
      {
        SweepsSoundRun(INIT, run, delay, age);
      }
    } else {
      var run := SlowRequestIsListedTwice(delay, age);
      assert [STAGE, STAGE][0] == [STAGE, STAGE][1];
      assert !Distinct(Exec(INIT, run).sweeps[3].listed);
    }
  }

  lemma {:induction false} TimelyThen(run: Run, s: State, step: Step, delay: nat, age: nat)
    returns (longer: Run, t: State)
    requires Valid(INIT, run) && Exec(INIT, run) == s && Enabled(s, step)
    requires Timely(INIT, run, delay, age) && TimelyStep(s, step, delay, age)
    ensures longer == run + [step] && t == Apply(s, step)
    ensures Valid(INIT, longer) && Exec(INIT, longer) == t && Timely(INIT, longer, delay, age)
  {
    longer, t := Then(run, s, step);
    TimelyAppend(INIT, run, step, delay, age);
  }

  lemma {:induction false} TimelyAppend(s: State, run: Run, step: Step, delay: nat, age: nat)
    requires Valid(s, run) && Enabled(Exec(s, run), step)
    ensures Valid(s, run + [step])
    ensures Timely(s, run + [step], delay, age) <==>
      Timely(s, run, delay, age) && TimelyStep(Exec(s, run), step, delay, age)
    decreases |run|
  {
    ValidAppend(s, run, step);
    if run == [] {
      assert (run + [step])[1..] == [];
    } else {
      assert (run + [step])[1..] == run[1..] + [step];
      TimelyAppend(Apply(s, run[0]), run[1..], step, delay, age);
    }
  }

  const STAGE := "s"
  const CAP := Capacity(STAGE, None, None)

  /** The state of the witness run, as far as it matters. */
  ghost predicate At(s: State, now: int, records: map<Stage, Record>, requests: map<Proc, Request>,
                     sweeps: map<Proc, Sweep>) {
    s.now == now && s.records == records && s.requests == requests && s.sweeps == sweeps && s.destroyers == map[]
  }

  function Kept(state: ReservationState): map<Stage, Record> {
    map[STAGE := Record(None, None, 0, state)]
  }

  /** Two requests for one stage are made, */
  lemma {:induction false} TwoMade(delay: nat, age: nat) returns (run: Run, s: State)
    ensures Valid(INIT, run) && Exec(INIT, run) == s && Timely(INIT, run, delay, age)
    ensures At(s, 0, map[], map[1 := Made(CAP, 0), 2 := Made(CAP, 0)], map[])
  {
    run, s := TimelyThen([], INIT, Reserve(1, CAP, DefaultDriver), delay, age);
    run, s := TimelyThen(run, s, Reserve(2, CAP, DefaultDriver), delay, age);
  }

  /** and both find no record. */
  lemma {:induction false} TwoRequests(delay: nat, age: nat) returns (run: Run, s: State)
    ensures Valid(INIT, run) && Exec(INIT, run) == s && Timely(INIT, run, delay, age)
    ensures At(s, 0, map[], map[1 := Creating(CAP, 0), 2 := Creating(CAP, 0)], map[])
  {
    run, s := TwoMade(delay, age);
    run, s := TimelyThen(run, s, CheckRecord(1), delay, age);
    run, s := TimelyThen(run, s, CheckRecord(2), delay, age);
  }

  /** The first stores its record, which grows old enough to be swept. */
  lemma {:induction false} FirstStored(delay: nat, age: nat) returns (run: Run, s: State)
    ensures Valid(INIT, run) && Exec(INIT, run) == s && Timely(INIT, run, delay, age)
    ensures At(s, age + 1, Kept(Created), map[2 := Creating(CAP, 0)], map[])
  {
    run, s := TwoRequests(delay, age);
    run, s := TimelyThen(run, s, CreateRecord(1), delay, age);
    assert s.requests == map[2 := Creating(CAP, 0)];
    run, s := TimelyThen(run, s, Tick(age + 1), delay, age);
  }

  /** A sweep starts, and finds nothing stuck. */
  lemma {:induction false} SweepStarts(delay: nat, age: nat) returns (run: Run, s: State)
    ensures Valid(INIT, run) && Exec(INIT, run) == s && Timely(INIT, run, delay, age)
    ensures At(s, age + 1, Kept(Created), map[2 := Creating(CAP, 0)], map[3 := Sweep(1, [], [], false)])
  {
    run, s := FirstStored(delay, age);
    run, s := TimelyThen(run, s, SweepTerminating(3, age, true, []), delay, age);
  }

  /** It claims the record as one that nobody used. */
  lemma {:induction false} FirstListing(delay: nat, age: nat) returns (run: Run, s: State)
    ensures Valid(INIT, run) && Exec(INIT, run) == s && Timely(INIT, run, delay, age)
    ensures At(s, age + 1, Kept(Terminating), map[2 := Creating(CAP, 0)], map[3 := Sweep(1, [STAGE], [], false)])
    ensures CAP in s.held
  {
    run, s := SweepStarts(delay, age);
    assert STAGE in [STAGE] && Elements([STAGE]) == {STAGE} && [] + [STAGE] == [STAGE];
    assert Read(s, [STAGE]) == {CAP} && Claimed(s.records, {STAGE}) == Kept(Terminating);
    run, s := TimelyThen(run, s, SweepClaimFree(3, [STAGE]), delay, age);
    assert s.sweeps == map[3 := Sweep(1, [STAGE], [], false)];
  }

  /** Somebody else starts to destroy it, */
  lemma {:induction false} FirstClaimed(delay: nat, age: nat) returns (run: Run, s: State)
    ensures Valid(INIT, run) && Exec(INIT, run) == s && Timely(INIT, run, delay, age)
    ensures s.now == age + 1 && s.records == Kept(Terminating) && s.requests == map[2 := Creating(CAP, 0)]
    ensures s.sweeps == map[3 := Sweep(1, [STAGE], [], false)] && s.destroyers == map[4 := Emptying(CAP)]
  {
    run, s := FirstListing(delay, age);
    run, s := TimelyThen(run, s, StartDestroy(4, CAP), delay, age);
    assert Claimed(s.records, {STAGE}) == s.records;
    run, s := TimelyThen(run, s, ClaimForTermination(4, true), delay, age);
  }

  /** finds no instance and no reservation to release, */
  lemma {:induction false} FirstReleased(delay: nat, age: nat) returns (run: Run, s: State)
    ensures Valid(INIT, run) && Exec(INIT, run) == s && Timely(INIT, run, delay, age)
    ensures s.now == age + 1 && s.records == Kept(Terminating) && s.requests == map[2 := Creating(CAP, 0)]
    ensures s.sweeps == map[3 := Sweep(1, [STAGE], [], false)] && s.destroyers == map[4 := Deleting(CAP)]
  {
    run, s := FirstClaimed(delay, age);
    run, s := TimelyThen(run, s, DestroyMachine(4, true), delay, age);
    assert s.destroyers == map[4 := Calling(CAP)];
    run, s := TimelyThen(run, s, NothingToRelease(4), delay, age);
  }

  /** and deletes the record. */
  lemma {:induction false} FirstDestroyed(delay: nat, age: nat) returns (run: Run, s: State)
    ensures Valid(INIT, run) && Exec(INIT, run) == s && Timely(INIT, run, delay, age)
    ensures At(s, age + 1, map[], map[2 := Creating(CAP, 0)], map[3 := Sweep(1, [STAGE], [], false)])
  {
    run, s := FirstReleased(delay, age);
    run, s := TimelyThen(run, s, DeleteRecord(4), delay, age);
  }

  /** The second request, slower than the age limit, stores its own record, already old. */
  lemma {:induction false} StoredAnew(delay: nat, age: nat) returns (run: Run, s: State)
    requires delay > age
    ensures Valid(INIT, run) && Exec(INIT, run) == s && Timely(INIT, run, delay, age)
    ensures At(s, age + 1, Kept(Created), map[], map[3 := Sweep(1, [STAGE], [], false)])
  {
    run, s := FirstDestroyed(delay, age);
    run, s := TimelyThen(run, s, CreateRecord(2), delay, age);
  }

  /** A setup consumes it, and the sweep, still running, lists it as in use. */
  lemma {:induction false} FoundAgain(delay: nat, age: nat) returns (run: Run, s: State)
    requires delay > age
    ensures Valid(INIT, run) && Exec(INIT, run) == s && Timely(INIT, run, delay, age)
    ensures At(s, age + 1, Kept(InUse), map[], map[3 := Sweep(1, [STAGE], [STAGE], false)])
    ensures STAGE in s.setups && !s.setups[STAGE].tagged
  {
    run, s := StoredAnew(delay, age);
    run, s := TimelyThen(run, s, SetupClaim(STAGE), delay, age);
    assert s.records == Kept(InUse);
    run, s := TimelyThen(run, s, SweepListInUse(3, true, [STAGE]), delay, age);
    assert s.sweeps == map[3 := Sweep(1, [STAGE], [STAGE], false)];
  }

  /** No instance carries the stage's name yet, so it is listed a second time. */
  lemma {:induction false} SlowRequestIsListedTwice(delay: nat, age: nat) returns (run: Run)
    requires delay > age
    ensures Valid(INIT, run) && Timely(INIT, run, delay, age)
    ensures 3 in Exec(INIT, run).sweeps && Exec(INIT, run).sweeps[3].listed == [STAGE, STAGE]
  {
    var s;
    run, s := FoundAgain(delay, age);
    run, s := TimelyThen(run, s, SweepLooks(3, true), delay, age);
    assert s.sweeps[3] == Sweep(1, [STAGE], [STAGE], true) && s.records == Kept(InUse);
    run, s := TimelyThen(run, s, SweepClaimOrphan(3), delay, age);
  }
}
