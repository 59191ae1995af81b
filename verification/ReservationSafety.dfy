/** What every run of the reservation protocol keeps. */
module ReservationSafety {
  import opened Options
  import opened Reservations

  // ---------- States only advance ----------

  function Rank(state: ReservationState): nat {
    match state case Created => 0 case InUse => 1 case Terminating => 2
  }

  predicate Creates(s: State, step: Step, stage: Stage) {
    step.CreateRecord? && step.proc in s.requests && s.requests[step.proc].cap.stage == stage
  }

  /** No record for this stage is created along the run. */
  predicate NeverCreates(s: State, run: Run, stage: Stage)
    requires Valid(s, run)
    decreases |run|
  {
    run == [] || (!Creates(s, run[0], stage) && NeverCreates(Apply(s, run[0]), run[1..], stage))
  }

  /** The record of a stage, later on: it may be gone, it may have moved on, nothing else. */
  ghost predicate Advances(s: State, t: State, stage: Stage) {
    stage in t.records ==>
      && stage in s.records && Rank(s.records[stage].state) <= Rank(t.records[stage].state)
        && Of(stage, t.records[stage]) == Of(stage, s.records[stage])
      && t.records[stage].createdAt == s.records[stage].createdAt
  }

  lemma {:induction false} AdvancesStepRequesting(s: State, step: Step, stage: Stage)
    requires Enabled(s, step) && !Creates(s, step, stage) && Requests(step)
    ensures Advances(s, Apply(s, step), stage)
  {
  }

  lemma {:induction false} AdvancesStepSettingUp(s: State, step: Step, stage: Stage)
    requires Enabled(s, step) && !Creates(s, step, stage) && SetsUp(step)
    ensures Advances(s, Apply(s, step), stage)
  {
  }

  lemma {:induction false} AdvancesStepDestroying(s: State, step: Step, stage: Stage)
    requires Enabled(s, step) && !Creates(s, step, stage) && Destroys(step)
    ensures Advances(s, Apply(s, step), stage)
  {
  }

  lemma {:induction false} AdvancesStepSweeping(s: State, step: Step, stage: Stage)
    requires Enabled(s, step) && !Creates(s, step, stage) && Sweeps(step)
    ensures Advances(s, Apply(s, step), stage)
  {
  }

  lemma {:induction false} AdvancesStep(s: State, step: Step, stage: Stage)
    requires Enabled(s, step) && !Creates(s, step, stage)
    ensures Advances(s, Apply(s, step), stage)
  {
    if Requests(step) {
      AdvancesStepRequesting(s, step, stage);
    } else if SetsUp(step) {
      AdvancesStepSettingUp(s, step, stage);
    } else if Destroys(step) {
      AdvancesStepDestroying(s, step, stage);
    } else {
      AdvancesStepSweeping(s, step, stage);
    }
  }

  /** Between two creations a record only moves created, in use, terminating, gone, and a setup
      consumes it at most once, and only while it is still in state created. */
  lemma {:induction false} StatesOnlyAdvance(s: State, run: Run, stage: Stage)
    requires Valid(s, run) && NeverCreates(s, run, stage)
    ensures Advances(s, Exec(s, run), stage)
    ensures (stage !in s.records || s.records[stage].state != Created) ==> SetupClaim(stage) !in run
    ensures forall i, j | 0 <= i < j < |run| :: run[i] == SetupClaim(stage) ==> run[j] != SetupClaim(stage)
    decreases |run|
  {
    if run != [] {
      AdvancesStep(s, run[0], stage);
      StatesOnlyAdvance(Apply(s, run[0]), run[1..], stage);
      assert run == [run[0]] + run[1..];
      forall i, j | 0 <= i < j < |run| ensures run[i] == SetupClaim(stage) ==> run[j] != SetupClaim(stage) {
        assert run[j] == run[1..][j - 1];
        if i > 0 { assert run[i] == run[1..][i - 1]; }
      }
    }
  }

  // ---------- A failed release stays selected ----------

  predicate NeverDeletes(s: State, run: Run, stage: Stage)
    requires Valid(s, run)
    decreases |run|
  {
    run == [] ||
    (!(run[0].DeleteRecord? && s.destroyers[run[0].proc].cap.stage == stage) &&
     NeverDeletes(Apply(s, run[0]), run[1..], stage))
  }

  lemma {:induction false} RecordStays(s: State, run: Run, stage: Stage)
    requires stage in s.records && Valid(s, run) && NeverDeletes(s, run, stage)
    ensures stage in Exec(s, run).records
    decreases |run|
  {
    if run != [] { RecordStays(Apply(s, run[0]), run[1..], stage); }
  }

  /** Once a destroy has claimed the record, it stays terminating through driver failures and
      everything else until somebody deletes it, and every sweep past the cutoff
      whose query succeeds lists it. */
  lemma {:induction false} FailedReleaseIsReselected(s: State, proc: Proc, run: Run, sweeper: Proc, age: nat,
                                                     found: seq<Stage>)
    requires Enabled(s, ClaimForTermination(proc, true)) && s.destroyers[proc].cap.stage in s.records
    requires Valid(Apply(s, ClaimForTermination(proc, true)), run)
    requires
      var t := Apply(s, ClaimForTermination(proc, true));
      var stage := s.destroyers[proc].cap.stage;
      NeverCreates(t, run, stage) && NeverDeletes(t, run, stage)
    ensures
      var u := Exec(Apply(s, ClaimForTermination(proc, true)), run);
      var stage := s.destroyers[proc].cap.stage;
      && stage in u.records && u.records[stage] == s.records[stage].(state := Terminating)
      && (Enabled(u, SweepTerminating(sweeper, age, true, found)) && s.records[stage].createdAt < u.now - age ==>
            stage in found)
  {
    var t := Apply(s, ClaimForTermination(proc, true));
    var stage := s.destroyers[proc].cap.stage;
    RecordStays(t, run, stage);
    StatesOnlyAdvance(t, run, stage);
    assert Rank(t.records[stage].state) == 2;
  }
}
