/** Whether a sweep can take away the machine of a stage that is being set up or running. */
module ReservedMachines {
  import opened Options
  import opened Reservations

  /** Setups tag their instance, or are over, at most `delay` after the driver stamped the reservation. */
  predicate Quick(s: State, delay: nat) {
    forall x | x in s.setups && !s.setups[x].tagged :: s.now <= s.setups[x].at + delay
  }

  /** Sweeps leave records alone for at least `age`. Look-ups fail only if `blind`, and a stage asks for
      capacity again only if `repeats`. */
  predicate CalmStep(s: State, step: Step, age: nat, blind: bool, repeats: bool) {
    && (step.SweepTerminating? ==> step.age >= age)
    && (step.SweepLooks? ==> step.ok || blind)
    && (step.Reserve? && step.cap.stage in s.asked ==> repeats)
  }

  predicate Calm(s: State, run: Run, delay: nat, age: nat, blind: bool, repeats: bool)
    requires Valid(s, run)
    decreases |run|
  {
    && Quick(s, delay)
    && (run == [] ||
        (CalmStep(s, run[0], age, blind, repeats) && Calm(Apply(s, run[0]), run[1..], delay, age, blind, repeats)))
  }

  /** No sweep has taken in the machine of a stage that is being set up or running on it, unless
      somebody asked for that stage's capacity to be destroyed. */
  ghost predicate Spared(s: State) {
    forall c, x | c in s.swept && x in s.setups && c.instance.Some? && s.setups[x].instance == c.instance ::
      x in s.dropped
  }

  // ---------- One stage through its life ----------

  /** Nothing of this stage is anywhere. */
  ghost predicate NoTrace(s: State, x: Stage) {
    && x !in s.records && x !in s.setups
    && (forall c | c in s.held :: c.stage != x) && (forall c | c in s.swept :: c.stage != x)
    && (forall d | d in s.destroyers :: s.destroyers[d].cap.stage != x)
    && (forall w | w in s.sweeps :: x !in s.sweeps[w].todo)
  }

  /** A stage is requested once, and has left no trace before its request is through. */
  ghost predicate RequestedOnce(s: State, x: Stage) {
    && (forall p | p in s.requests && s.requests[p].cap.stage == x :: x in s.asked && NoTrace(s, x))
    && (forall p, q | p in s.requests && q in s.requests && p != q && s.requests[p].cap.stage == x ::
          s.requests[q].cap.stage != x)
    && (x !in s.asked ==> NoTrace(s, x))
  }

  /** Its record is in use or beyond once it is set up, and terminating only when dropped. */
  ghost predicate InOrder(s: State, x: Stage) {
    && (x in s.setups && x in s.records ==>
          s.records[x].state != Created && s.records[x].createdAt == s.setups[x].at)
    && (x in s.setups && x in s.records && s.records[x].state == Terminating ==> x in s.dropped)
    && (forall d | d in s.destroyers && s.destroyers[d].cap.stage == x ::
          x in s.dropped || (x !in s.records && x !in s.setups))
  }

  /** No sweep will take it in while it is set up. */
  ghost predicate SweptLast(s: State, x: Stage, age: nat) {
    && (forall c | c in s.swept && c.stage == x :: Done(s, x))
    && (forall w | w in s.sweeps :: s.sweeps[w].cutoff + age <= s.now)
    && (forall w | w in s.sweeps && x in s.sweeps[w].todo :: Consumed(s, x, s.sweeps[w].cutoff))
    && (forall w | w in s.sweeps && s.sweeps[w].absent && s.sweeps[w].todo != [] && s.sweeps[w].todo[0] == x ::
          x in s.setups ==> x in s.dropped)
  }

  predicate Done(s: State, x: Stage) {
    (x in s.records ==> s.records[x].state == Terminating) && (x in s.setups ==> x in s.dropped)
  }

  predicate Consumed(s: State, x: Stage, cutoff: int) {
    (x in s.records ==> s.records[x].state != Created) && (x in s.setups ==> s.setups[x].at < cutoff)
  }

  ghost predicate Steady(s: State, x: Stage, age: nat) {
    RequestedOnce(s, x) && InOrder(s, x) && SweptLast(s, x, age)
  }

  /** A new request leaves everything else as it was. */
  ghost predicate Requesting(s: State, t: State, proc: Proc, cap: Capacity) {
    && t.records == s.records && t.setups == s.setups && t.held == s.held && t.swept == s.swept
    && t.destroyers == s.destroyers && t.sweeps == s.sweeps && t.dropped == s.dropped && t.now == s.now
    && proc !in s.requests && t.requests == s.requests[proc := Made(cap, s.now)] && t.asked == s.asked + {cap.stage}
    && (cap.instance.Some? ==> cap.instance.value !in s.warmed)
    && t.warmed == if cap.instance.Some? then s.warmed[cap.instance.value := cap.stage] else s.warmed
  }

  lemma {:induction false} ReserveRequests(s: State, step: Step)
    requires Enabled(s, step) && step.Reserve?
    ensures Requesting(s, Apply(s, step), step.proc, step.cap)
  {
  }

  lemma {:induction false} OnceRequesting(s: State, t: State, proc: Proc, cap: Capacity, x: Stage)
    requires RequestedOnce(s, x) && Requesting(s, t, proc, cap) && cap.stage !in s.asked
    ensures RequestedOnce(t, x)
  {
    assert NoTrace(s, x) ==> NoTrace(t, x);
  }

  /** The request for this stage stores its record or gives up. */
  predicate Fulfils(s: State, step: Step, x: Stage) {
    && (step.CreateRecord? || step.CreateFails?)
    && step.proc in s.requests && s.requests[step.proc].cap.stage == x
  }

  lemma {:induction false} TraceStepRequesting(s: State, step: Step, x: Stage)
    requires Enabled(s, step) && !step.Reserve? && NoTrace(s, x) && !Fulfils(s, step, x)
    requires Requests(step)
    ensures NoTrace(Apply(s, step), x)
  {
  }

  lemma {:induction false} TraceStepSettingUp(s: State, step: Step, x: Stage)
    requires Enabled(s, step) && !step.Reserve? && NoTrace(s, x) && !Fulfils(s, step, x)
    requires SetsUp(step)
    ensures NoTrace(Apply(s, step), x)
  {
  }

  lemma {:induction false} TraceStepDestroying(s: State, step: Step, x: Stage)
    requires Enabled(s, step) && !step.Reserve? && NoTrace(s, x) && !Fulfils(s, step, x)
    requires Destroys(step)
    ensures NoTrace(Apply(s, step), x)
  {
  }

  lemma {:induction false} TraceStepSweeping(s: State, step: Step, x: Stage)
    requires Enabled(s, step) && !step.Reserve? && NoTrace(s, x) && !Fulfils(s, step, x)
    requires Sweeps(step)
    ensures NoTrace(Apply(s, step), x)
  {
  }

  /** Nobody else brings a stage up. */
  lemma {:induction false} TraceStep(s: State, step: Step, x: Stage)
    requires Enabled(s, step) && !step.Reserve? && NoTrace(s, x) && !Fulfils(s, step, x)
    ensures NoTrace(Apply(s, step), x)
  {
    if Requests(step) {
      TraceStepRequesting(s, step, x);
    } else if SetsUp(step) {
      TraceStepSettingUp(s, step, x);
    } else if Destroys(step) {
      TraceStepDestroying(s, step, x);
    } else {
      TraceStepSweeping(s, step, x);
    }
  }

  /** Requests end, and no others begin. */
  ghost predicate Fewer(s: State, t: State, step: Step) {
    && t.asked == s.asked && (forall p | p in t.requests :: p in s.requests && t.requests[p].cap == s.requests[p].cap)
    && (step.CreateRecord? || step.CreateFails? ==> step.proc !in t.requests)
  }

  lemma {:induction false} RequestEnds(s: State, step: Step)
    requires Enabled(s, step) && !step.Reserve? && Requests(step)
    ensures Fewer(s, Apply(s, step), step)
  {
  }

  lemma {:induction false} NoRequestEnds(s: State, step: Step)
    requires Enabled(s, step) && !Requests(step)
    ensures Fewer(s, Apply(s, step), step)
  {
  }

  lemma {:induction false} RequestsEnd(s: State, step: Step)
    requires Enabled(s, step) && !step.Reserve?
    ensures Fewer(s, Apply(s, step), step)
  {
    if Requests(step) { RequestEnds(s, step); } else { NoRequestEnds(s, step); }
  }

  lemma {:induction false} OnceStep(s: State, step: Step, x: Stage)
    requires RequestedOnce(s, x) && Enabled(s, step) && (step.Reserve? ==> step.cap.stage !in s.asked)
    ensures RequestedOnce(Apply(s, step), x)
  {
    if step.Reserve? {
      ReserveRequests(s, step);
      OnceRequesting(s, Apply(s, step), step.proc, step.cap, x);
    } else {
      RequestsEnd(s, step);
      if NoTrace(s, x) && !Fulfils(s, step, x) { TraceStep(s, step, x); }
    }
  }

  lemma {:induction false} OrderStepRequesting(s: State, step: Step, x: Stage, age: nat)
    requires Steady(s, x, age) && Enabled(s, step)
    requires Requests(step)
    ensures InOrder(Apply(s, step), x)
  {
  }

  lemma {:induction false} OrderStepSettingUp(s: State, step: Step, x: Stage, age: nat)
    requires Steady(s, x, age) && Enabled(s, step)
    requires SetsUp(step)
    ensures InOrder(Apply(s, step), x)
  {
  }

  lemma {:induction false} OrderStepDestroying(s: State, step: Step, x: Stage, age: nat)
    requires Steady(s, x, age) && Enabled(s, step)
    requires Destroys(step)
    ensures InOrder(Apply(s, step), x)
  {
  }

  lemma {:induction false} OrderStepSweeping(s: State, step: Step, x: Stage, age: nat)
    requires Steady(s, x, age) && Enabled(s, step)
    requires Sweeps(step)
    ensures InOrder(Apply(s, step), x)
  {
  }

  lemma {:induction false} OrderStep(s: State, step: Step, x: Stage, age: nat)
    requires Steady(s, x, age) && Enabled(s, step)
    ensures InOrder(Apply(s, step), x)
  {
    if Requests(step) {
      OrderStepRequesting(s, step, x, age);
    } else if SetsUp(step) {
      OrderStepSettingUp(s, step, x, age);
    } else if Destroys(step) {
      OrderStepDestroying(s, step, x, age);
    } else {
      OrderStepSweeping(s, step, x, age);
    }
  }

  lemma {:induction false} SweptRequesting(s: State, t: State, proc: Proc, cap: Capacity, x: Stage, age: nat)
    requires SweptLast(s, x, age) && Requesting(s, t, proc, cap)
    ensures SweptLast(t, x, age)
  {
  }

  lemma {:induction false} SweptStepReserving(s: State, step: Step, x: Stage, age: nat)
    requires SweptLast(s, x, age) && Enabled(s, step) && step.Reserve?
    ensures SweptLast(Apply(s, step), x, age)
  {
    ReserveRequests(s, step);
    SweptRequesting(s, Apply(s, step), step.proc, step.cap, x, age);
  }

  lemma {:induction false} SweptStepRecording(s: State, step: Step, x: Stage, delay: nat, age: nat)
    requires Steady(s, x, age) && Enabled(s, step) && Quick(s, delay) && delay <= age
    requires CalmStep(s, step, age, false, false)
    requires Requests(step) && !step.Reserve?
    ensures SweptLast(Apply(s, step), x, age)
  {
  }

  lemma {:induction false} SweptStepSettingUp(s: State, step: Step, x: Stage, delay: nat, age: nat)
    requires Steady(s, x, age) && Enabled(s, step) && Quick(s, delay) && delay <= age
    requires CalmStep(s, step, age, false, false)
    requires SetsUp(step)
    ensures SweptLast(Apply(s, step), x, age)
  {
  }

  lemma {:induction false} SweptStepDestroying(s: State, step: Step, x: Stage, delay: nat, age: nat)
    requires Steady(s, x, age) && Enabled(s, step) && Quick(s, delay) && delay <= age
    requires CalmStep(s, step, age, false, false)
    requires Destroys(step)
    ensures SweptLast(Apply(s, step), x, age)
  {
  }

  lemma {:induction false} SweptStepListing(s: State, step: Step, x: Stage, delay: nat, age: nat)
    requires Steady(s, x, age) && Enabled(s, step) && Quick(s, delay) && delay <= age
    requires CalmStep(s, step, age, false, false)
    requires step.SweepTerminating? || step.SweepListInUse?
    ensures SweptLast(Apply(s, step), x, age)
  {
  }

  lemma {:induction false} SweptStepLooking(s: State, step: Step, x: Stage, delay: nat, age: nat)
    requires Steady(s, x, age) && Enabled(s, step) && Quick(s, delay) && delay <= age
    requires CalmStep(s, step, age, false, false)
    requires step.SweepLooks?
    ensures SweptLast(Apply(s, step), x, age)
  {
  }

  lemma {:induction false} SweptStepClaiming(s: State, step: Step, x: Stage, delay: nat, age: nat)
    requires Steady(s, x, age) && Enabled(s, step) && Quick(s, delay) && delay <= age
    requires CalmStep(s, step, age, false, false)
    requires step.SweepClaimFree?
    ensures SweptLast(Apply(s, step), x, age)
  {
  }

  lemma {:induction false} SweptStepSweeping(s: State, step: Step, x: Stage, delay: nat, age: nat)
    requires Steady(s, x, age) && Enabled(s, step) && Quick(s, delay) && delay <= age
    requires CalmStep(s, step, age, false, false)
    requires Sweeps(step) && !step.SweepTerminating? && !step.SweepListInUse?
    requires !step.SweepLooks? && !step.SweepClaimFree?
    ensures SweptLast(Apply(s, step), x, age)
  {
  }

  lemma {:induction false} SweptStep(s: State, step: Step, x: Stage, delay: nat, age: nat)
    requires Steady(s, x, age) && Enabled(s, step) && Quick(s, delay) && delay <= age
    requires CalmStep(s, step, age, false, false)
    ensures SweptLast(Apply(s, step), x, age)
  {
    if step.Reserve? {
      SweptStepReserving(s, step, x, age);
    } else if Requests(step) && !step.Reserve? {
      SweptStepRecording(s, step, x, delay, age);
    } else if SetsUp(step) {
      SweptStepSettingUp(s, step, x, delay, age);
    } else if Destroys(step) {
      SweptStepDestroying(s, step, x, delay, age);
    } else if step.SweepTerminating? || step.SweepListInUse? {
      SweptStepListing(s, step, x, delay, age);
    } else if step.SweepLooks? {
      SweptStepLooking(s, step, x, delay, age);
    } else if step.SweepClaimFree? {
      SweptStepClaiming(s, step, x, delay, age);
    } else {
      SweptStepSweeping(s, step, x, delay, age);
    }
  }

  // ---------- Whose instance it is ----------

  /** The warm instance of a capacity object was kept for its stage. */
  predicate Kept(s: State, x: Stage, instance: Option<InstanceId>) {
    instance.Some? ==> instance.value in s.warmed && s.warmed[instance.value] == x
  }

  ghost predicate AllKept(s: State) {
    && (forall p | p in s.requests :: Kept(s, s.requests[p].cap.stage, s.requests[p].cap.instance))
    && (forall x | x in s.records :: Kept(s, x, s.records[x].instance))
    && (forall x | x in s.setups :: Kept(s, x, s.setups[x].instance))
    && (forall c | c in s.swept :: Kept(s, c.stage, c.instance))
  }

  lemma {:induction false} KeptRequesting(s: State, t: State, proc: Proc, cap: Capacity)
    requires AllKept(s) && Requesting(s, t, proc, cap)
    ensures AllKept(t)
  {
  }

  lemma {:induction false} KeptStepReserving(s: State, step: Step)
    requires AllKept(s) && Enabled(s, step)
    requires step.Reserve?
    ensures AllKept(Apply(s, step))
  {
    ReserveRequests(s, step);
    KeptRequesting(s, Apply(s, step), step.proc, step.cap);
  }

  lemma {:induction false} KeptStepRecording(s: State, step: Step)
    requires AllKept(s) && Enabled(s, step)
    requires Requests(step) && !step.Reserve?
    ensures AllKept(Apply(s, step))
  {
  }

  lemma {:induction false} KeptStepSettingUp(s: State, step: Step)
    requires AllKept(s) && Enabled(s, step)
    requires SetsUp(step)
    ensures AllKept(Apply(s, step))
  {
  }

  lemma {:induction false} KeptStepDestroying(s: State, step: Step)
    requires AllKept(s) && Enabled(s, step)
    requires Destroys(step)
    ensures AllKept(Apply(s, step))
  {
  }

  lemma {:induction false} KeptStepSweeping(s: State, step: Step)
    requires AllKept(s) && Enabled(s, step)
    requires Sweeps(step)
    ensures AllKept(Apply(s, step))
  {
  }

  lemma {:induction false} KeptStep(s: State, step: Step)
    requires AllKept(s) && Enabled(s, step)
    ensures AllKept(Apply(s, step))
  {
    if step.Reserve? {
      KeptStepReserving(s, step);
    } else if Requests(step) && !step.Reserve? {
      KeptStepRecording(s, step);
    } else if SetsUp(step) {
      KeptStepSettingUp(s, step);
    } else if Destroys(step) {
      KeptStepDestroying(s, step);
    } else {
      KeptStepSweeping(s, step);
    }
  }

  // ---------- Every run ----------

  ghost predicate AllSteady(s: State, age: nat) {
    AllKept(s) && forall x :: Steady(s, x, age)
  }

  lemma {:induction false} SteadyRun(s: State, run: Run, delay: nat, age: nat)
    requires AllSteady(s, age) && Valid(s, run) && Calm(s, run, delay, age, false, false) && delay <= age
    ensures AllSteady(Exec(s, run), age)
    decreases |run|
  {
    if run != [] {
      var t := Apply(s, run[0]);
      KeptStep(s, run[0]);
      forall x ensures Steady(t, x, age) {
        assert Steady(s, x, age);
        OnceStep(s, run[0], x);
        OrderStep(s, run[0], x, age);
        SweptStep(s, run[0], x, delay, age);
      }
      SteadyRun(t, run[1..], delay, age);
    }
  }

  lemma {:induction false} SteadyIsSpared(s: State, age: nat)
    requires AllSteady(s, age)
    ensures Spared(s)
  {
    forall c, x | c in s.swept && x in s.setups && c.instance.Some? && s.setups[x].instance == c.instance
      ensures x in s.dropped
    {
      assert c.stage == x && Steady(s, x, age);
    }
  }

  /** However requests, setups, destroys and sweeps interleave, no sweep takes in the machine of a stage
      that is set up or running on it, if and only if setups tag their machine before its reservation is
      old enough to be swept, look-ups do not fail, and no stage is requested twice. */
  lemma {:induction false} SetupsAreSparedIff(delay: nat, age: nat, blind: bool, repeats: bool)
    ensures
      (forall run | Valid(INIT, run) && Calm(INIT, run, delay, age, blind, repeats) :: Spared(Exec(INIT, run)))
      <==> delay <= age && !blind && !repeats
  {
    if delay <= age && !blind && !repeats {
      forall run | Valid(INIT, run) && Calm(INIT, run, delay, age, blind, repeats) ensures Spared(Exec(INIT, run)) {
        SteadyRun(INIT, run, delay, age);
        SteadyIsSpared(Exec(INIT, run), age);
      }
    } else {
      var run := MachineTaken(delay, age, blind, repeats);
      assert Valid(INIT, run) && Calm(INIT, run, delay, age, blind, repeats) && !Spared(Exec(INIT, run));
    }
  }

  // ---------- The runs in which a machine is taken ----------

  lemma {:induction false} CalmAppend(s: State, run: Run, step: Step, delay: nat, age: nat, blind: bool, repeats: bool)
    requires Valid(s, run) && Enabled(Exec(s, run), step) && Calm(s, run, delay, age, blind, repeats)
    requires CalmStep(Exec(s, run), step, age, blind, repeats) && Quick(Apply(Exec(s, run), step), delay)
    ensures Valid(s, run + [step]) && Calm(s, run + [step], delay, age, blind, repeats)
    decreases |run|
  {
    ValidAppend(s, run, step);
    if run == [] {
      assert (run + [step])[1..] == [];
    } else {
      assert (run + [step])[1..] == run[1..] + [step];
      CalmAppend(Apply(s, run[0]), run[1..], step, delay, age, blind, repeats);
    }
  }

  /** How a run may go. */
  datatype Terms = Terms(delay: nat, age: nat, blind: bool, repeats: bool)

  ghost predicate Reaches(run: Run, s: State, m: Terms) {
    Valid(INIT, run) && Exec(INIT, run) == s && Calm(INIT, run, m.delay, m.age, m.blind, m.repeats)
  }

  lemma {:induction false} CalmThen(run: Run, s: State, step: Step, m: Terms) returns (longer: Run, t: State)
    requires Reaches(run, s, m) && Enabled(s, step)
    requires CalmStep(s, step, m.age, m.blind, m.repeats) && Quick(Apply(s, step), m.delay)
    ensures longer == run + [step] && t == Apply(s, step) && Reaches(longer, t, m)
  {
    CalmAppend(INIT, run, step, m.delay, m.age, m.blind, m.repeats);
    longer, t := Then(run, s, step);
  }

  const STAGE := "s"
  const CAP := Capacity(STAGE, None, Some("i"))

  /** A stage is being set up on the machine kept for it; `rival` if a second request for it is under
      way that found no record either. */
  ghost predicate UnderWay(s: State, state: ReservationState, tagged: bool, rival: bool) {
    && s.records == map[STAGE := Record(None, CAP.instance, 0, state)]
    && s.setups == map[STAGE := Setup(CAP.instance, 0, tagged)] && s.dropped == {} && s.sweeps == map[]
    && s.requests == (if rival then map[2 := Creating(Capacity(STAGE, None, None), 0)] else map[])
  }

  lemma {:induction false} Requested(m: Terms, rival: bool) returns (run: Run, s: State)
    requires rival ==> m.repeats
    ensures Reaches(run, s, m) && s.now == 0 && s.records == map[] && s.setups == map[] && s.dropped == {}
    ensures s.sweeps == map[] && s.destroyers == map[]
    ensures s.requests == if rival then map[1 := Made(CAP, 0), 2 := Made(Capacity(STAGE, None, None), 0)]
                          else map[1 := Made(CAP, 0)]
  {
    run, s := [], INIT;
    run, s := CalmThen(run, s, Reserve(1, CAP, DefaultDriver), m);
    assert s.requests == map[1 := Made(CAP, 0)];
    if rival { run, s := CalmThen(run, s, Reserve(2, Capacity(STAGE, None, None), DefaultDriver), m); }
  }

  lemma {:induction false} Recorded(m: Terms, rival: bool) returns (run: Run, s: State)
    requires rival ==> m.repeats
    ensures Reaches(run, s, m) && s.now == 0 && s.setups == map[] && s.dropped == {}
    ensures s.records == map[STAGE := Record(None, CAP.instance, 0, Created)]
    ensures s.sweeps == map[] && s.destroyers == map[]
    ensures s.requests == if rival then map[2 := Creating(Capacity(STAGE, None, None), 0)] else map[]
  {
    run, s := Requested(m, rival);
    run, s := CalmThen(run, s, CheckRecord(1), m);
    if rival { run, s := CalmThen(run, s, CheckRecord(2), m); }
    run, s := CalmThen(run, s, CreateRecord(1), m);
  }

  lemma {:induction false} SetUp(m: Terms, tagged: bool, rival: bool) returns (run: Run, s: State)
    requires rival ==> m.repeats
    ensures Reaches(run, s, m) && s.now == 0 && UnderWay(s, InUse, tagged, rival) && s.destroyers == map[]
  {
    run, s := Recorded(m, rival);
    run, s := CalmThen(run, s, SetupClaim(STAGE), m);
    assert UnderWay(s, InUse, false, rival);
    if tagged { run, s := CalmThen(run, s, SetupTags(STAGE), m); }
  }

  ghost predicate Swept(s: State, m: Terms, tagged: bool, sweep: Sweep) {
    && s.now == m.age + 1 && s.dropped == {} && s.sweeps == map[3 := sweep]
    && s.records == map[STAGE := Record(None, CAP.instance, 0, InUse)]
    && s.setups == map[STAGE := Setup(CAP.instance, 0, tagged)]
  }

  /** The reservation gets old enough to be swept. */
  lemma {:induction false} SweepBegins(m: Terms, tagged: bool) returns (run: Run, s: State)
    requires tagged || m.delay > m.age
    ensures Reaches(run, s, m) && Swept(s, m, tagged, Sweep(1, [], [], false))
  {
    run, s := SetUp(m, tagged, false);
    run, s := CalmThen(run, s, Tick(m.age + 1), m);
    run, s := CalmThen(run, s, SweepTerminating(3, m.age, true, []), m);
    assert s.sweeps == map[3 := Sweep(1, [], [], false)];
  }

  /** A sweep finds its record in use, */
  lemma {:induction false} ListedInUse(m: Terms, tagged: bool) returns (run: Run, s: State)
    requires tagged || m.delay > m.age
    ensures Reaches(run, s, m) && Swept(s, m, tagged, Sweep(1, [], [STAGE], false))
  {
    run, s := SweepBegins(m, tagged);
    assert STAGE in [STAGE];
    run, s := CalmThen(run, s, SweepListInUse(3, true, [STAGE]), m);
    assert s.sweeps == map[3 := Sweep(1, [], [STAGE], false)];
  }

  /** but no instance, because the setup was slow to tag it or because the look-up fails. */
  lemma {:induction false} NotFound(m: Terms) returns (run: Run, s: State)
    requires m.delay > m.age || m.blind
    ensures Reaches(run, s, m) && Swept(s, m, m.blind, Sweep(1, [], [STAGE], true))
  {
    run, s := ListedInUse(m, m.blind);
    run, s := CalmThen(run, s, SweepLooks(3, !m.blind), m);
    assert s.sweeps == map[3 := Sweep(1, [], [STAGE], true)];
  }

  lemma {:induction false} TakenAsOrphan(m: Terms) returns (run: Run, s: State)
    requires m.delay > m.age || m.blind
    ensures Reaches(run, s, m) && !Spared(s)
  {
    run, s := NotFound(m);
    assert STAGE in [STAGE];
    run, s := CalmThen(run, s, SweepClaimOrphan(3), m);
    assert CAP in s.swept && STAGE in s.setups;
  }

  /** A second request cannot store its record, and its compensation, which works by stage, marks the
      first one's terminating. */
  lemma {:induction false} MarkedByRival(m: Terms) returns (run: Run, s: State)
    requires m.repeats
    ensures Reaches(run, s, m) && s.now == 0 && s.dropped == {} && s.sweeps == map[] && 3 !in s.requests
    ensures s.records == map[STAGE := Record(None, CAP.instance, 0, Terminating)] && 3 !in s.destroyers
    ensures s.setups == map[STAGE := Setup(CAP.instance, 0, true)]
  {
    run, s := SetUp(m, true, true);
    run, s := CalmThen(run, s, CreateFails(2, 2), m);
    assert s.destroyers == map[2 := Claiming(Capacity(STAGE, None, None))] && s.requests == map[];
    run, s := CalmThen(run, s, ClaimForTermination(2, true), m);
  }

  /** When that destroy gets no further, a sweep takes it for stuck, whose stage is still running. */
  lemma {:induction false} TakenAsStuck(m: Terms) returns (run: Run, s: State)
    requires m.repeats
    ensures Reaches(run, s, m) && !Spared(s)
  {
    run, s := MarkedByRival(m);
    run, s := CalmThen(run, s, Tick(m.age + 1), m);
    assert STAGE in [STAGE];
    run, s := CalmThen(run, s, SweepTerminating(3, m.age, true, [STAGE]), m);
    assert CAP in s.swept && STAGE in s.setups;
  }

  lemma {:induction false} MachineTaken(delay: nat, age: nat, blind: bool, repeats: bool) returns (run: Run)
    requires delay > age || blind || repeats
    ensures Valid(INIT, run) && Calm(INIT, run, delay, age, blind, repeats) && !Spared(Exec(INIT, run))
  {
    var m := Terms(delay, age, blind, repeats);
    var s;
    if repeats { run, s := TakenAsStuck(m); } else { run, s := TakenAsOrphan(m); }
  }
}
