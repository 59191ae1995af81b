/** The operations on capacity reservations as the code performs them, statement by statement,
    with other runners free to act in every gap. Each is a run of the reservation protocol. */
module ReservationDesk {
  import opened Options
  import opened Reservations
  import Machines = ReservedMachines
  import Once = ReservationSweeps

  /** Not a step of this process. */
  predicate LeavesProc(step: Step, proc: Proc) {
    match step
    case Reserve(p, _, _) => p != proc
    case CheckRecord(p) => p != proc
    case CreateRecord(p) => p != proc
    case CreateFails(p, q) => p != proc && q != proc
    case StartDestroy(p, _) => p != proc
    case ClaimForTermination(p, _) => p != proc
    case DriverReleases(p) => p != proc
    case DriverFails(p) => p != proc
    case NothingToRelease(p) => p != proc
    case DeleteRecord(p) => p != proc
    case ProcEnds(p) => p != proc
    case DestroyMachine(p, _) => p != proc
    case SweepTerminating(p, _, _, _) => p != proc
    case SweepClaimFree(p, _) => p != proc
    case SweepListInUse(p, _, _) => p != proc
    case SweepLooks(p, _) => p != proc
    case SweepClaimOrphan(p) => p != proc
    case SweepSkip(p) => p != proc
    case SweepEnds(p) => p != proc
    case _ => true
  }

  predicate Leave(env: Run, proc: Proc) {
    forall k | 0 <= k < |env| :: LeavesProc(env[k], proc)
  }

  predicate AllLeave(envs: seq<Run>, proc: Proc) {
    forall k | 0 <= k < |envs| :: Leave(envs[k], proc)
  }

  /** Others never move this process. */
  predicate KeepsProc(s: State, t: State, proc: Proc) {
    && (proc in t.requests <==> proc in s.requests) && (proc in s.requests ==> t.requests[proc] == s.requests[proc])
    && (proc in t.destroyers <==> proc in s.destroyers)
    && (proc in s.destroyers ==> t.destroyers[proc] == s.destroyers[proc])
    && (proc in t.sweeps <==> proc in s.sweeps)
    && (proc in s.sweeps ==> t.sweeps[proc] == s.sweeps[proc])
    && s.held <= t.held && s.swept <= t.swept
  }

  lemma {:induction false} ForeignStepRequesting(s: State, step: Step, proc: Proc)
    requires Enabled(s, step) && LeavesProc(step, proc)
    requires Requests(step)
    ensures KeepsProc(s, Apply(s, step), proc)
  {
  }

  lemma {:induction false} ForeignStepSettingUp(s: State, step: Step, proc: Proc)
    requires Enabled(s, step) && LeavesProc(step, proc)
    requires SetsUp(step)
    ensures KeepsProc(s, Apply(s, step), proc)
  {
  }

  lemma {:induction false} ForeignStepDestroying(s: State, step: Step, proc: Proc)
    requires Enabled(s, step) && LeavesProc(step, proc)
    requires Destroys(step)
    ensures KeepsProc(s, Apply(s, step), proc)
  {
  }

  lemma {:induction false} ForeignStepSweeping(s: State, step: Step, proc: Proc)
    requires Enabled(s, step) && LeavesProc(step, proc)
    requires Sweeps(step)
    ensures KeepsProc(s, Apply(s, step), proc)
  {
  }

  lemma {:induction false} ForeignStep(s: State, step: Step, proc: Proc)
    requires Enabled(s, step) && LeavesProc(step, proc)
    ensures KeepsProc(s, Apply(s, step), proc)
  {
    if Requests(step) {
      ForeignStepRequesting(s, step, proc);
    } else if SetsUp(step) {
      ForeignStepSettingUp(s, step, proc);
    } else if Destroys(step) {
      ForeignStepDestroying(s, step, proc);
    } else {
      ForeignStepSweeping(s, step, proc);
    }
  }

  /** What the three statements of one DestroyCapacity that can fail come to. */
  datatype Answers = Answers(claim: bool, machine: bool, driver: bool)

  /** What the queries of one sweep come to: whether each of the three succeeds, the rows others hold
      locked, and the stages whose instance look-up fails. */
  datatype Lookups = Lookups(stuck: bool, unused: bool, inUse: bool, locked: set<Stage>, blind: set<Stage>)

  class Desk {
    var s: State
    ghost var run: Run

    ghost predicate Faithful()
      reads this
    {
      Valid(INIT, run) && Exec(INIT, run) == s
    }

    constructor ()
      ensures Faithful() && s == INIT
    {
      s, run := INIT, [];
    }

    method Do(step: Step)
      requires Faithful() && Enabled(s, step)
      modifies this
      ensures Faithful() && s == Apply(old(s), step) && run == old(run) + [step]
    {
      ValidAppend(INIT, run, step);
      s := Apply(s, step);
      run := run + [step];
    }

    /** What other processes do meanwhile; steps that cannot happen here are left out. */
    method Gap(env: Run, ghost proc: Proc)
      requires Faithful() && Leave(env, proc)
      modifies this
      ensures Faithful() && old(run) <= run && KeepsProc(old(s), s, proc)
      ensures env == [] ==> s == old(s)
    {
      for i := 0 to |env|
        invariant Faithful() && old(run) <= run && KeepsProc(old(s), s, proc)
        invariant i == 0 ==> s == old(s)
      {
        assert LeavesProc(env[i], proc);
        if Enabled(s, env[i]) {
          ForeignStep(s, env[i], proc);
          Do(env[i]);
        }
      }
    }

    /** Marks the record terminating, destroys the warm instance and calls the driver. That the
        instance could not be destroyed is only logged; a failed release ends the destroy and leaves the
        record for the next sweep. */
    method ClaimAndRelease(proc: Proc, cap: Capacity, a: Answers, beforeMachine: Run, beforeDriver: Run)
      returns (ok: bool)
      requires Faithful() && proc in s.destroyers && s.destroyers[proc] == Claiming(cap)
      requires proc !in s.requests && proc !in s.sweeps
      requires Leave(beforeMachine, proc)
      requires Leave(beforeDriver, proc)
      modifies this
      ensures Faithful() && old(run) <= run && ok == (cap.rid.None? || a.driver) && old(s).held <= s.held
      ensures proc !in s.requests && proc !in s.sweeps
      ensures if ok then proc in s.destroyers && s.destroyers[proc] == Deleting(cap) else proc !in s.destroyers
      ensures beforeMachine == [] && beforeDriver == [] ==>
        && s.records == (if a.claim then Claimed(old(s).records, {cap.stage}) else old(s).records)
        && s.cloud == Freed(old(s).cloud, cap, a.driver) && s.machines == Scrapped(old(s).machines, cap, a.machine)
        && s.held == old(s).held && s.now == old(s).now && s.setups == old(s).setups
    {
      Do(ClaimForTermination(proc, a.claim));
      Gap(beforeMachine, proc);
      Do(DestroyMachine(proc, a.machine));
      Gap(beforeDriver, proc);
      ok := Release(proc, cap, a.driver);
    }

    /** The driver call, when there is a reservation to release. */
    method Release(proc: Proc, cap: Capacity, driverOk: bool) returns (ok: bool)
      requires Faithful() && proc in s.destroyers && s.destroyers[proc] == Calling(cap)
      requires proc !in s.requests && proc !in s.sweeps
      modifies this
      ensures Faithful() && old(run) <= run && ok == (cap.rid.None? || driverOk)
      ensures proc !in s.requests && proc !in s.sweeps
      ensures if ok then proc in s.destroyers && s.destroyers[proc] == Deleting(cap) else proc !in s.destroyers
      ensures s == old(s).(cloud := Freed(old(s).cloud, cap, driverOk), destroyers := s.destroyers)
    {
      if cap.rid.None? {
        Do(NothingToRelease(proc));
        return true;
      }
      if !driverOk {
        Do(DriverFails(proc));
        return false;
      }
      Do(DriverReleases(proc));
      return true;
    }

    /** Destroys one capacity: claim, destroy its instance, release, delete. */
    method DestroyCapacity(proc: Proc, cap: Capacity, a: Answers, beforeMachine: Run, beforeDriver: Run,
                           beforeDelete: Run)
      returns (ok: bool)
      requires Faithful() && Idle(s, proc) && cap in s.held
      requires Leave(beforeMachine, proc)
      requires Leave(beforeDriver, proc)
      requires Leave(beforeDelete, proc)
      modifies this
      ensures Faithful() && old(run) <= run && Idle(s, proc) && old(s).held <= s.held
      ensures ok == (cap.rid.None? || a.driver)
      ensures beforeMachine == [] && beforeDriver == [] && beforeDelete == [] ==>
        && s.records == Destroyed(old(s).records, cap, a.claim, a.driver)
        && s.cloud == Freed(old(s).cloud, cap, a.driver) && s.machines == Scrapped(old(s).machines, cap, a.machine)
        && s.held == old(s).held && s.now == old(s).now && s.setups == old(s).setups
    {
      Do(StartDestroy(proc, cap));
      ok := ClaimAndRelease(proc, cap, a, beforeMachine, beforeDriver);
      if !ok { return; }
      Gap(beforeDelete, proc);
      ForgottenAnyway(old(s).records, cap.stage);
      Do(DeleteRecord(proc));
    }

    /** Stores the record of a reservation just made, unless the stage has one already: then the new
        reservation and its instance stay without a record. A record that cannot be stored is
        compensated by destroying both. */
    method RecordReservation(proc: Proc, cap: Capacity, owner: Owner, storeOk: bool, a: Answers,
                             beforeCheck: Run, beforeCreate: Run)
      returns (stored: bool)
      requires Faithful() && Enabled(s, Reserve(proc, cap, owner))
      requires Leave(beforeCheck, proc)
      requires Leave(beforeCreate, proc)
      modifies this
      ensures Faithful() && old(run) <= run && Idle(s, proc)
      ensures stored ==>
        cap.stage in s.records && s.records[cap.stage] == Record(cap.rid, cap.instance, old(s).now, Created)
      ensures beforeCheck == [] && beforeCreate == [] ==>
        && stored == (storeOk && cap.stage !in old(s).records)
        && s.records == (if stored
                         then old(s).records[cap.stage := Record(cap.rid, cap.instance, old(s).now, Created)]
                         else old(s).records)
        && var kept := stored || cap.stage in old(s).records;
           var cloud, machines := Booked(old(s).cloud, cap, owner), Warmed(old(s).machines, cap);
           && s.cloud == (if kept then cloud else Freed(cloud, cap, a.driver))
           && s.machines == (if kept then machines else Scrapped(machines, cap, a.machine))
    {
      Do(Reserve(proc, cap, owner));
      assert s.requests[proc] == Made(cap, old(s).now);
      assert s.cloud == Booked(old(s).cloud, cap, owner) && s.machines == Warmed(old(s).machines, cap);
      Gap(beforeCheck, proc);
      Do(CheckRecord(proc));
      if proc !in s.requests { return false; }
      Gap(beforeCreate, proc);
      if storeOk && cap.stage !in s.records {
        Do(CreateRecord(proc));
        return true;
      }
      GiveUp(proc, cap, a);
      return false;
    }

    /** The compensation of a request that could not store its record. */
    method GiveUp(proc: Proc, cap: Capacity, a: Answers)
      requires Faithful() && proc in s.requests && s.requests[proc].Creating? && s.requests[proc].cap == cap
      requires proc !in s.sweeps
      modifies this
      ensures Faithful() && old(run) <= run && Idle(s, proc)
      ensures s.cloud == Freed(old(s).cloud, cap, a.driver) && s.machines == Scrapped(old(s).machines, cap, a.machine)
      ensures cap.stage !in old(s).records ==> s.records == old(s).records
    {
      Do(CreateFails(proc, proc));
      ghost var before := s.records;
      var ok := ClaimAndRelease(proc, cap, a, [], []);
      ForgottenAnyway(before, cap.stage);
      if ok { Do(DeleteRecord(proc)); }
    }

    /** The answer of a store query, built row by row; a claim may skip rows others hold locked. */
    method Query(cutoff: int, state: ReservationState, locked: set<Stage>) returns (found: seq<Stage>)
      ensures Distinct(found)
      ensures forall stage :: stage in found <==> Stale(s, stage, cutoff, state) && stage !in locked
    {
      found := [];
      var rows := s.records.Keys;
      while rows != {}
        invariant rows <= s.records.Keys && Distinct(found)
        invariant forall stage :: stage in found <==>
          Stale(s, stage, cutoff, state) && stage !in locked && stage !in rows
        decreases rows
      {
        var stage :| stage in rows;
        rows := rows - {stage};
        if Stale(s, stage, cutoff, state) && stage !in locked { found := found + [stage]; }
      }
    }

    /** The next listed record: claimed when no instance is found for its stage and it is still in use
        then. `between` is what others do after the look-up. */
    method ClaimNext(proc: Proc, ok: bool, between: Run) returns (claimed: seq<Capacity>)
      requires Faithful() && Sweeping(s, proc) && s.sweeps[proc].todo != []
      requires Leave(between, proc)
      modifies this
      ensures Faithful() && old(run) <= run && Sweeping(s, proc)
      ensures s.sweeps[proc].todo == old(s).sweeps[proc].todo[1..]
      ensures old(s).held <= s.held && old(s).swept <= s.swept
      ensures Taken(s, claimed)
      ensures s.sweeps[proc].listed == old(s).sweeps[proc].listed + Stages(claimed)
      ensures between == [] ==>
        && Calmly(old(s), s)
        && TakesNext(old(s), s, old(s).sweeps[proc].todo[0], ok, claimed)
    {
      var stage := s.sweeps[proc].todo[0];
      Do(SweepLooks(proc, ok));
      if !s.sweeps[proc].absent { return []; }
      Gap(between, proc);
      claimed := ClaimAbsent(proc, stage);
    }

    method LookAndClaim(proc: Proc, blind: set<Stage>, before: Run, between: Run) returns (claimed: seq<Capacity>)
      requires Faithful() && Sweeping(s, proc) && s.sweeps[proc].todo != []
      requires Leave(before, proc)
      requires Leave(between, proc)
      modifies this
      ensures Faithful() && old(run) <= run && Sweeping(s, proc)
      ensures s.sweeps[proc].todo == old(s).sweeps[proc].todo[1..]
      ensures old(s).held <= s.held && old(s).swept <= s.swept
      ensures Taken(s, claimed)
      ensures s.sweeps[proc].listed == old(s).sweeps[proc].listed + Stages(claimed)
      ensures before == [] && between == [] ==>
        var stage := old(s).sweeps[proc].todo[0];
        Calmly(old(s), s) && TakesNext(old(s), s, stage, stage !in blind, claimed)
    {
      Gap(before, proc);
      claimed := ClaimNext(proc, s.sweeps[proc].todo[0] !in blind, between);
    }

    method ClaimAbsent(proc: Proc, stage: Stage) returns (claimed: seq<Capacity>)
      requires Faithful() && proc in s.sweeps && proc !in s.requests && proc !in s.destroyers
      requires s.sweeps[proc].absent && s.sweeps[proc].todo != [] && s.sweeps[proc].todo[0] == stage
      modifies this
      ensures Faithful() && old(run) <= run && Sweeping(s, proc) && Calmly(old(s), s)
      ensures old(s).held <= s.held && old(s).swept <= s.swept
      ensures Taken(s, claimed)
      ensures s.sweeps[proc].todo == old(s).sweeps[proc].todo[1..]
      ensures s.sweeps[proc].listed == old(s).sweeps[proc].listed + Stages(claimed)
      ensures
        if stage in old(s).records && old(s).records[stage].state == InUse
        then s.records == Claimed(old(s).records, {stage}) && claimed == [Of(stage, old(s).records[stage])]
        else s.records == old(s).records && claimed == []
    {
      if stage in s.records && s.records[stage].state == InUse {
        claimed := [Of(stage, s.records[stage])];
        Do(SweepClaimOrphan(proc));
        assert claimed[0] in Read(old(s), [stage]) by { assert stage in [stage]; }
      } else {
        claimed := [];
        Do(SweepSkip(proc));
      }
    }

    /** Claims, one by one, the listed in-use records for whose stage no instance is found. Others act in
        the gaps `env`, before each look-up and after it. */
    method FindOrphans(proc: Proc, blind: set<Stage>, env: seq<Run>) returns (orphans: seq<Capacity>)
      requires Faithful() && Sweeping(s, proc)
      requires AllLeave(env, proc)
      modifies this
      ensures Faithful() && old(run) <= run && Sweeping(s, proc) && s.sweeps[proc].todo == []
      ensures old(s).held <= s.held && old(s).swept <= s.swept
      ensures Taken(s, orphans)
      ensures s.sweeps[proc].listed == old(s).sweeps[proc].listed + Stages(orphans)
      ensures Distinct(old(s).sweeps[proc].todo) && env == [] ==>
        && Calmly(old(s), s) && OrphansSoFar(old(s), s, old(s).sweeps[proc].todo, blind, orphans)
    {
      orphans := [];
      var gap := 0;
      ghost var todo, n := s.sweeps[proc].todo, 0;
      ghost var quiet := Distinct(todo) && env == [];
      while s.sweeps[proc].todo != []
        invariant 0 <= gap && Faithful() && old(run) <= run && Sweeping(s, proc)
        invariant old(s).held <= s.held && old(s).swept <= s.swept
        invariant Taken(s, orphans)
        invariant s.sweeps[proc].listed == old(s).sweeps[proc].listed + Stages(orphans)
        invariant n <= |todo| && s.sweeps[proc].todo == todo[n..]
        invariant quiet ==> Calmly(old(s), s) && OrphansSoFar(old(s), s, todo[..n], blind, orphans)
        decreases |todo| - n
      {
        var before, between := At(env, gap), At(env, gap + 1);
        gap := gap + 2;
        ghost var t, earlier := s, orphans;
        assert todo[n..][0] == todo[n] && todo[n..][1..] == todo[n + 1..];
        var claimed := LookAndClaim(proc, blind, before, between);
        orphans := orphans + claimed;
        StagesAppend(earlier, claimed);
        if quiet { OrphansStep(old(s), t, s, todo, n, blind, earlier, claimed); }
        n := n + 1;
      }
      assert todo[..n] == todo;
    }

    /** The first lookup of a sweep: records stuck terminating. */
    method ListStuck(proc: Proc, age: nat, ok: bool) returns (caps: seq<Capacity>)
      requires Faithful() && Idle(s, proc)
      modifies this
      ensures Faithful() && old(run) <= run && Sweeping(s, proc)
      ensures s.sweeps[proc] == Sweep(old(s).now - age, Stages(caps), [], false)
      ensures Taken(s, caps)
      ensures Calmly(old(s), s) && s.records == old(s).records
      ensures
        var stuck := set x | x in s.records && ok && Stale(s, x, old(s).now - age, Terminating);
        forall c :: c in caps <==> c in Capacities(s.records, stuck)
    {
      var stuck := [];
      if ok { stuck := Query(s.now - age, Terminating, {}); }
      caps := Copies(s.records, stuck);
      assert (set x | x in s.records && ok && Stale(s, x, s.now - age, Terminating)) == set x | x in stuck;
      CopiesAreRead(s, stuck, caps);
      Do(SweepTerminating(proc, age, ok, stuck));
    }

    /** The second: records never used, claimed in one statement. */
    method ClaimUnused(proc: Proc, ok: bool, locked: set<Stage>) returns (caps: seq<Capacity>)
      requires Faithful() && Sweeping(s, proc) && s.sweeps[proc].todo == []
      modifies this
      ensures Faithful() && old(run) <= run && Sweeping(s, proc) && Calmly(old(s), s)
      ensures old(s).held <= s.held && old(s).swept <= s.swept
      ensures s.sweeps[proc] == old(s).sweeps[proc].(listed := old(s).sweeps[proc].listed + Stages(caps))
      ensures Taken(s, caps)
      ensures
        var free := Free(old(s), old(s).sweeps[proc].cutoff, ok, locked);
        && s.records == Claimed(old(s).records, free)
        && forall c :: c in caps <==> c in Capacities(old(s).records, free)
    {
      var free := [];
      if ok { free := Query(s.sweeps[proc].cutoff, Created, locked); }
      caps := Copies(s.records, free);
      assert Free(s, s.sweeps[proc].cutoff, ok, locked) == Elements(free);
      CopiesAreRead(s, free, caps);
      Do(SweepClaimFree(proc, free));
    }

    /** Both lookups, with others free to act in between. */
    method CollectUnused(proc: Proc, age: nat, q: Lookups, beforeClaim: Run) returns (caps: seq<Capacity>)
      requires Faithful() && Idle(s, proc)
      requires Leave(beforeClaim, proc)
      modifies this
      ensures Faithful() && old(run) <= run && Sweeping(s, proc)
      ensures s.sweeps[proc] == Sweep(old(s).now - age, Stages(caps), [], false)
      ensures Taken(s, caps)
      ensures beforeClaim == [] ==>
        var unused := Unused(old(s), old(s).now - age, q);
        && Calmly(old(s), s) && s.records == Claimed(old(s).records, unused)
        && (forall c :: c in caps <==> c in Capacities(old(s).records, unused))
    {
      var first := ListStuck(proc, age, q.stuck);
      Gap(beforeClaim, proc);
      var second := ClaimUnused(proc, q.unused, q.locked);
      caps := first + second;
      assert Stages(caps) == Stages(first) + Stages(second);
      if beforeClaim == [] { UnusedParts(old(s), old(s).now - age, q); }
    }

    /** The third: in-use records for whose stage no instance is found. */
    method CollectOrphans(proc: Proc, q: Lookups, beforeList: Run, env: seq<Run>)
      returns (orphans: seq<Capacity>)
      requires Faithful() && Sweeping(s, proc) && s.sweeps[proc].todo == []
      requires Leave(beforeList, proc)
      requires AllLeave(env, proc)
      modifies this
      ensures Faithful() && old(run) <= run && Sweeping(s, proc)
      ensures old(s).held <= s.held && old(s).swept <= s.swept
      ensures Taken(s, orphans)
      ensures s.sweeps[proc].listed == old(s).sweeps[proc].listed + Stages(orphans)
      ensures beforeList == [] && env == [] ==>
        var late := Lost(old(s), old(s).sweeps[proc].cutoff, q);
        && Calmly(old(s), s) && s.records == Claimed(old(s).records, late)
        && forall c :: c in orphans <==> c in Capacities(old(s).records, late)
    {
      Gap(beforeList, proc);
      var inUse := [];
      if q.inUse { inUse := Query(s.sweeps[proc].cutoff, InUse, {}); }
      assert Orphaned(s, inUse, q.blind) == Lost(s, s.sweeps[proc].cutoff, q);
      Do(SweepListInUse(proc, q.inUse, inUse));
      orphans := FindOrphans(proc, q.blind, env);
    }

    /** The three lookups of a sweep. */
    method CollectAll(proc: Proc, age: nat, q: Lookups, beforeClaim: Run, beforeList: Run, env: seq<Run>)
      returns (caps: seq<Capacity>)
      requires Faithful() && Idle(s, proc)
      requires Leave(beforeClaim, proc)
      requires Leave(beforeList, proc)
      requires AllLeave(env, proc)
      modifies this
      ensures Faithful() && old(run) <= run && Sweeping(s, proc) && s.sweeps[proc].listed == Stages(caps)
      ensures Taken(s, caps)
      ensures beforeClaim == [] && beforeList == [] && env == [] ==>
        var collected := Collected(old(s), old(s).now - age, q);
        && Calmly(old(s), s) && s.records == Claimed(old(s).records, collected)
        && (forall c :: c in caps <==> c in Capacities(old(s).records, collected))
    {
      var unused := CollectUnused(proc, age, q, beforeClaim);
      ghost var before := s;
      var orphans := CollectOrphans(proc, q, beforeList, env);
      caps := unused + orphans;
      assert Stages(caps) == Stages(unused) + Stages(orphans);
      if beforeClaim == [] && beforeList == [] && env == [] {
        CollectedParts(old(s), before, old(s).now - age, q);
      }
    }

    /** No stage is collected twice as long as requests store their records before these are old enough
        to be swept, and no machine in use as long as setups tag theirs in that time, look-ups succeed
        and stages are requested once. */
    method CollectStale(proc: Proc, age: nat, q: Lookups, beforeClaim: Run, beforeList: Run, env: seq<Run>)
      returns (caps: seq<Capacity>)
      requires Faithful() && Idle(s, proc)
      requires Leave(beforeClaim, proc)
      requires Leave(beforeList, proc)
      requires AllLeave(env, proc)
      modifies this
      ensures Faithful() && old(run) <= run && Idle(s, proc)
      ensures Taken(s, caps)
      ensures Once.Timely(INIT, run, age, age) ==> Distinct(Stages(caps))
      ensures Machines.Calm(INIT, run, age, age, false, false) ==> NotInUse(s, caps)
      ensures beforeClaim == [] && beforeList == [] && env == [] ==>
        var collected := Collected(old(s), old(s).now - age, q);
        && Calmly(old(s), s) && s.records == Claimed(old(s).records, collected)
        && (forall c :: c in caps <==> c in Capacities(old(s).records, collected))
    {
      caps := CollectAll(proc, age, q, beforeClaim, beforeList, env);
      NothingTwice(run, s, proc, age);
      Do(SweepEnds(proc));
      if Machines.Calm(INIT, run, age, age, false, false) { NoneInUse(run, s, caps, age); }
    }

    /** A whole sweep: collect, then destroy each collected capacity. `failing` are the stages whose
        release the driver refuses; their records stay, terminating. `broken` are those whose instance
        it fails to destroy; their records go all the same. */
    method CleanupCapacities(proc: Proc, age: nat, q: Lookups, failing: set<Stage>, broken: set<Stage>,
                             beforeClaim: Run, beforeList: Run, env: seq<Run>, late: seq<Run>)
      requires Faithful() && Idle(s, proc)
      requires Leave(beforeClaim, proc)
      requires Leave(beforeList, proc)
      requires AllLeave(env, proc)
      requires AllLeave(late, proc)
      modifies this
      ensures Faithful() && old(run) <= run && Idle(s, proc)
      ensures beforeClaim == [] && beforeList == [] && env == [] && late == [] ==>
        var collected := Collected(old(s), old(s).now - age, q);
        var taken := Capacities(old(s).records, collected);
        && s.records == Claimed(old(s).records, collected) - Forgotten(taken, failing)
        && s.cloud == old(s).cloud - Let(old(s).cloud, taken, failing)
        && s.machines == old(s).machines - Gone(taken, broken)
    {
      var caps := CollectStale(proc, age, q, beforeClaim, beforeList, env);
      ghost var quiet := beforeClaim == [] && beforeList == [] && env == [] && late == [];
      if quiet {
        assert (set c | c in caps) == Capacities(old(s).records, Collected(old(s), old(s).now - age, q));
      }
      DestroyAll(proc, caps, failing, broken, late);
    }

    method DestroyAll(proc: Proc, caps: seq<Capacity>, failing: set<Stage>, broken: set<Stage>, late: seq<Run>)
      requires Faithful() && Idle(s, proc) && forall c | c in caps :: c in s.held
      requires AllLeave(late, proc)
      modifies this
      ensures Faithful() && old(run) <= run && Idle(s, proc)
      ensures late == [] && (forall c | c in caps :: Stuck(old(s), c.stage)) ==>
        Emptied(old(s), s, caps, failing, broken)
    {
      ghost var quiet := late == [] && forall c | c in caps :: Stuck(old(s), c.stage);
      assert s.records == s.records - {} && s.cloud == s.cloud - {} && s.machines == s.machines - {};
      for i := 0 to |caps|
        invariant Faithful() && old(run) <= run && Idle(s, proc)
        invariant forall c | c in caps :: c in s.held
        invariant quiet ==> Emptied(old(s), s, caps[..i], failing, broken)
      {
        ghost var before := s;
        var gap := if i < |late| then late[i] else [];
        assert caps[i] in caps;
        var a := Answers(true, caps[i].stage !in broken, caps[i].stage !in failing);
        var ok := DestroyCapacity(proc, caps[i], a, gap, [], []);
        assert caps[..i + 1] == caps[..i] + [caps[i]];
        if quiet { EmptiedStep(old(s), before, s, caps[..i], caps[i], failing, broken); }
      }
      assert caps[..|caps|] == caps;
    }
  }

  lemma {:induction false} NothingTwice(run: Run, s: State, proc: Proc, age: nat)
    requires Valid(INIT, run) && Exec(INIT, run) == s && proc in s.sweeps
    ensures Valid(INIT, run + [SweepEnds(proc)])
    ensures Once.Timely(INIT, run + [SweepEnds(proc)], age, age) ==> Distinct(s.sweeps[proc].listed)
  {
    Once.TimelyAppend(INIT, run, SweepEnds(proc), age, age);
    if Once.Timely(INIT, run, age, age) { Once.SweepsSoundRun(INIT, run, age, age); }
  }

  /** Capacity objects that sweeps have read and taken in. */
  ghost predicate Taken(s: State, caps: seq<Capacity>) {
    forall c | c in caps :: c in s.held && c in s.swept
  }

  /** No stage is set up or running on one of these machines, unless it was asked to be destroyed. */
  ghost predicate NotInUse(s: State, caps: seq<Capacity>) {
    forall c, x | c in caps && x in s.setups && c.instance.Some? && s.setups[x].instance == c.instance ::
      x in s.dropped
  }

  lemma {:induction false} NoneInUse(run: Run, s: State, caps: seq<Capacity>, age: nat)
    requires Valid(INIT, run) && Exec(INIT, run) == s && Machines.Calm(INIT, run, age, age, false, false)
    requires forall c | c in caps :: c in s.swept
    ensures NotInUse(s, caps)
  {
    Machines.SteadyRun(INIT, run, age, age);
    Machines.SteadyIsSpared(s, age);
  }

  predicate Sweeping(s: State, proc: Proc) {
    proc in s.sweeps && !s.sweeps[proc].absent && proc !in s.requests && proc !in s.destroyers
  }

  /** What a sweep leaves alone while it collects. */
  predicate Calmly(s: State, t: State) {
    t.cloud == s.cloud && t.machines == s.machines && t.setups == s.setups && t.now == s.now
  }

  function Stages(caps: seq<Capacity>): (stages: seq<Stage>)
    ensures |stages| == |caps| && forall k | 0 <= k < |caps| :: stages[k] == caps[k].stage
  {
    seq(|caps|, k requires 0 <= k < |caps| => caps[k].stage)
  }

  lemma {:induction false} StagesAppend(x: seq<Capacity>, y: seq<Capacity>)
    ensures Stages(x + y) == Stages(x) + Stages(y)
  {
  }

  /** The k-th gap; nobody else acts in those beyond the list. */
  function At(envs: seq<Run>, k: nat): (env: Run)
    ensures forall proc | AllLeave(envs, proc) :: Leave(env, proc)
    ensures envs == [] ==> env == []
  {
    if k < |envs| then envs[k] else []
  }

  function Capacities(records: map<Stage, Record>, stages: set<Stage>): set<Capacity> {
    set stage | stage in stages && stage in records :: Of(stage, records[stage])
  }

  function Copies(records: map<Stage, Record>, stages: seq<Stage>): (caps: seq<Capacity>)
    requires forall x | x in stages :: x in records
    ensures Stages(caps) == stages
    ensures forall c :: c in caps <==> c in Capacities(records, set x | x in stages)
  {
    var caps := seq(|stages|, k requires 0 <= k < |stages| => Of(stages[k], records[stages[k]]));
    assert forall k | 0 <= k < |stages| :: caps[k] == Of(stages[k], records[stages[k]]) && stages[k] in stages;
    caps
  }

  lemma {:induction false} CopiesAreRead(s: State, stages: seq<Stage>, caps: seq<Capacity>)
    requires forall c | c in caps :: c in Capacities(s.records, set x | x in stages)
    ensures forall c | c in caps :: c in Read(s, stages)
  {
  }

  /** A look-up that fails for the blind stages finds the instance of this one. */
  predicate Seen(s: State, x: Stage, blind: set<Stage>) {
    x !in blind && Found(s, x, true)
  }

  /** The rows never used that a sweep claims. */
  function Free(s: State, cutoff: int, ok: bool, locked: set<Stage>): set<Stage> {
    set x | x in s.records && ok && Stale(s, x, cutoff, Created) && x !in locked
  }

  /** What a sweep takes in: stuck terminating rows, unused rows, and in-use rows without instance. */
  function Collected(s: State, cutoff: int, q: Lookups): set<Stage> {
    set x | x in s.records && s.records[x].createdAt < cutoff &&
            match s.records[x].state
            case Terminating => q.stuck
            case Created => q.unused && x !in q.locked
            case InUse => q.inUse && !Seen(s, x, q.blind)
  }

  function Unused(s: State, cutoff: int, q: Lookups): set<Stage> {
    set x | x in s.records && s.records[x].createdAt < cutoff &&
            ((s.records[x].state == Terminating && q.stuck) ||
             (s.records[x].state == Created && q.unused && x !in q.locked))
  }

  /** The in-use rows past the cutoff for whose stage no instance is found. */
  function Lost(s: State, cutoff: int, q: Lookups): set<Stage> {
    set x | x in s.records && q.inUse && Stale(s, x, cutoff, InUse) && !Seen(s, x, q.blind)
  }

  lemma {:induction false} UnusedParts(s: State, cutoff: int, q: Lookups)
    ensures
      var stuck := set x | x in s.records && q.stuck && Stale(s, x, cutoff, Terminating);
      var free := Free(s, cutoff, q.unused, q.locked);
      && Claimed(s.records, free) == Claimed(s.records, Unused(s, cutoff, q))
      && Capacities(s.records, Unused(s, cutoff, q)) == Capacities(s.records, stuck) + Capacities(s.records, free)
  {
  }

  lemma {:induction false} CollectedParts(s: State, t: State, cutoff: int, q: Lookups)
    requires t.records == Claimed(s.records, Unused(s, cutoff, q)) && t.setups == s.setups
    ensures
      var taken, late := Unused(s, cutoff, q), Lost(t, cutoff, q);
      && Claimed(t.records, late) == Claimed(s.records, Collected(s, cutoff, q))
      && Capacities(s.records, Collected(s, cutoff, q)) ==
         Capacities(s.records, taken) + Capacities(t.records, late)
  {
    var taken, late := Unused(s, cutoff, q), Lost(t, cutoff, q);
    assert Collected(s, cutoff, q) == taken + late;
  }

  /** The stages whose records a sweep deletes: nothing to release, or the release succeeded. */
  function Forgotten(caps: set<Capacity>, failing: set<Stage>): set<Stage> {
    set c | c in caps && (c.rid.None? || c.stage !in failing) :: c.stage
  }

  /** The cloud reservations a sweep releases. */
  function Let(cloud: map<ReservationId, Owner>, caps: set<Capacity>, failing: set<Stage>): set<ReservationId> {
    set c | c in caps && c.rid.Some? && c.stage !in failing && c.rid.value in cloud
            && cloud[c.rid.value] == DefaultDriver :: c.rid.value
  }

  /** The warm instances a sweep destroys. */
  function Gone(caps: set<Capacity>, broken: set<Stage>): set<InstanceId> {
    set c | c in caps && c.instance.Some? && c.stage !in broken :: c.instance.value
  }

  predicate Stuck(s: State, stage: Stage) {
    stage in s.records && s.records[stage].state == Terminating
  }

  ghost predicate Emptied(s: State, t: State, done: seq<Capacity>, failing: set<Stage>, broken: set<Stage>) {
    var caps := set c | c in done;
    && t.records == s.records - Forgotten(caps, failing) && t.cloud == s.cloud - Let(s.cloud, caps, failing)
    && t.machines == s.machines - Gone(caps, broken)
  }

  lemma {:induction false} EmptiedRecords(records: map<Stage, Record>, left: map<Stage, Record>, caps: set<Capacity>,
                                          cap: Capacity, failing: set<Stage>)
    requires left == records - Forgotten(caps, failing)
    requires cap.stage in records && records[cap.stage].state == Terminating
    ensures Destroyed(left, cap, true, cap.stage !in failing) == records - Forgotten(caps + {cap}, failing)
  {
    assert Forgotten(caps + {cap}, failing) == Forgotten(caps, failing) + Forgotten({cap}, failing);
    assert Claimed(left, {cap.stage}) == left;
  }

  lemma {:induction false} EmptiedCloud(cloud: map<ReservationId, Owner>, caps: set<Capacity>, cap: Capacity,
                                        failing: set<Stage>)
    ensures Freed(cloud - Let(cloud, caps, failing), cap, cap.stage !in failing)
         == cloud - Let(cloud, caps + {cap}, failing)
  {
    assert Let(cloud, caps + {cap}, failing) == Let(cloud, caps, failing) + Let(cloud, {cap}, failing);
  }

  lemma {:induction false} EmptiedMachines(machines: set<InstanceId>, caps: set<Capacity>, cap: Capacity,
                                           broken: set<Stage>)
    ensures Scrapped(machines - Gone(caps, broken), cap, cap.stage !in broken) == machines - Gone(caps + {cap}, broken)
  {
    assert Gone(caps + {cap}, broken) == Gone(caps, broken) + Gone({cap}, broken);
    assert Gone({cap}, broken) == if cap.instance.Some? && cap.stage !in broken then {cap.instance.value} else {};
  }

  lemma {:induction false} EmptiedStep(s: State, t: State, u: State, done: seq<Capacity>, cap: Capacity,
                                       failing: set<Stage>, broken: set<Stage>)
    requires Emptied(s, t, done, failing, broken) && Stuck(s, cap.stage)
    requires u.records == Destroyed(t.records, cap, true, cap.stage !in failing)
    requires u.cloud == Freed(t.cloud, cap, cap.stage !in failing)
    requires u.machines == Scrapped(t.machines, cap, cap.stage !in broken)
    ensures Emptied(s, u, done + [cap], failing, broken)
  {
    var caps, more := set c | c in done, set c | c in done + [cap];
    assert more == caps + {cap};
    EmptiedRecords(s.records, t.records, caps, cap, failing);
    EmptiedCloud(s.cloud, caps, cap, failing);
    EmptiedMachines(s.machines, caps, cap, broken);
  }

  /** The listed in-use rows for whose stage no instance is found. */
  function Orphaned(s: State, listed: seq<Stage>, blind: set<Stage>): set<Stage> {
    set x | x in listed && x in s.records && s.records[x].state == InUse && !Seen(s, x, blind)
  }

  ghost predicate OrphansSoFar(s: State, t: State, done: seq<Stage>, blind: set<Stage>, orphans: seq<Capacity>) {
    && t.records == Claimed(s.records, Orphaned(s, done, blind)) && t.setups == s.setups
    && forall c :: c in orphans <==> c in Capacities(s.records, Orphaned(s, done, blind))
  }

  /** One listed row: claimed when it is in use and no instance is found, left alone otherwise. */
  predicate TakesNext(s: State, t: State, stage: Stage, ok: bool, claimed: seq<Capacity>) {
    if !Found(s, stage, ok) && stage in s.records && s.records[stage].state == InUse
    then t.records == Claimed(s.records, {stage}) && claimed == [Of(stage, s.records[stage])]
    else t.records == s.records && claimed == []
  }

  lemma {:induction false} OrphansStep(s: State, t: State, u: State, todo: seq<Stage>, n: nat, blind: set<Stage>,
                                       orphans: seq<Capacity>, claimed: seq<Capacity>)
    requires n < |todo| && Distinct(todo) && OrphansSoFar(s, t, todo[..n], blind, orphans) && u.setups == t.setups
    requires TakesNext(t, u, todo[n], todo[n] !in blind, claimed)
    ensures OrphansSoFar(s, u, todo[..n + 1], blind, orphans + claimed)
  {
    var stage := todo[n];
    var before, after := Orphaned(s, todo[..n], blind), Orphaned(s, todo[..n + 1], blind);
    assert todo[..n + 1] == todo[..n] + [stage] && stage !in todo[..n];
    if !Found(t, stage, stage !in blind) && stage in t.records && t.records[stage].state == InUse {
      assert after == before + {stage};
      assert Claimed(t.records, {stage}) == Claimed(s.records, after);
      assert Capacities(s.records, after) == Capacities(s.records, before) + {Of(stage, s.records[stage])};
    } else {
      assert after == before;
    }
  }

  function Destroyed(records: map<Stage, Record>, cap: Capacity, claimOk: bool, driverOk: bool): map<Stage, Record> {
    if cap.rid.None? || driverOk then records - {cap.stage}
    else if claimOk then Claimed(records, {cap.stage}) else records
  }

  /** The reservations in the cloud once a driver made this one. */
  function Booked(cloud: map<ReservationId, Owner>, cap: Capacity, owner: Owner): map<ReservationId, Owner> {
    if cap.rid.Some? then cloud[cap.rid.value := owner] else cloud
  }

  /** The reservations left in the cloud once the default driver was asked to release this one. */
  function Freed(cloud: map<ReservationId, Owner>, cap: Capacity, driverOk: bool): map<ReservationId, Owner> {
    if cap.rid.Some? && driverOk && cap.rid.value in cloud && cloud[cap.rid.value] == DefaultDriver
    then cloud - {cap.rid.value} else cloud
  }

  /** The warm instances once this one is kept for its stage ... */
  function Warmed(machines: set<InstanceId>, cap: Capacity): set<InstanceId> {
    if cap.instance.Some? then machines + {cap.instance.value} else machines
  }

  /** ... and once the driver was asked to destroy it. */
  function Scrapped(machines: set<InstanceId>, cap: Capacity, ok: bool): set<InstanceId> {
    if cap.instance.Some? && ok then machines - {cap.instance.value} else machines
  }

  lemma {:induction false} ForgottenAnyway(records: map<Stage, Record>, stage: Stage)
    ensures Claimed(records, {stage}) - {stage} == records - {stage}
    ensures stage !in records ==> Claimed(records, {stage}) == records && records - {stage} == records
  {
  }
}
