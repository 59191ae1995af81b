/** Which requests for capacity never cost anybody a recorded reservation. */
module ReservationLoss {
  import opened Options
  import opened Reservations

  /** Every reservation that was recorded and still exists in the cloud has a record. */
  ghost predicate NoLoss(s: State) {
    forall rid | rid in s.recorded && rid in s.cloud :: exists x :: x in s.records && s.records[x].rid == Some(rid)
  }

  ghost predicate UniqueRids(s: State) {
    && s.cloud.Keys <= s.issued && s.recorded <= s.issued
    && (forall x | x in s.records && s.records[x].rid.Some? :: s.records[x].rid.value in s.recorded)
    && (forall p | p in s.requests && s.requests[p].cap.rid.Some? ::
          s.requests[p].cap.rid.value in s.issued && s.requests[p].cap.rid.value !in s.recorded)
    && (forall x, y | x in s.records && y in s.records && x != y && s.records[x].rid.Some? ::
          s.records[x].rid != s.records[y].rid)
    && (forall p, q | p in s.requests && q in s.requests && p != q && s.requests[p].cap.rid.Some? ::
          s.requests[p].cap.rid != s.requests[q].cap.rid)
  }

  /** Deleting this record forgets nothing: it is gone, has no reservation, or that one is released. */
  predicate Covering(s: State, step: Step) {
    step.DeleteRecord? && step.proc in s.destroyers && s.destroyers[step.proc].cap.stage in s.records ==>
      var rid := s.records[s.destroyers[step.proc].cap.stage].rid;
      rid.Some? ==> rid.value !in s.cloud
  }

  predicate IssuesOrRecords(step: Step) {
    step.Reserve? || step.CreateRecord?
  }

  /** The difference a step makes that only moves capacity objects around. */
  ghost predicate Moved(s: State, t: State, deletes: bool) {
    && t.issued == s.issued && t.recorded == s.recorded && t.cloud.Keys <= s.cloud.Keys
    && (forall x | x in t.records :: x in s.records && Of(x, t.records[x]) == Of(x, s.records[x]))
    && (forall x | x in s.records :: x in t.records || deletes)
    && (forall p | p in t.requests :: p in s.requests && t.requests[p].cap == s.requests[p].cap)
  }

  lemma {:induction false} NothingNewRequesting(s: State, step: Step)
    requires Enabled(s, step) && !IssuesOrRecords(step) && Requests(step)
    ensures Moved(s, Apply(s, step), step.DeleteRecord?)
  {
  }

  lemma {:induction false} NothingNewSettingUp(s: State, step: Step)
    requires Enabled(s, step) && !IssuesOrRecords(step) && SetsUp(step)
    ensures Moved(s, Apply(s, step), step.DeleteRecord?)
  {
  }

  lemma {:induction false} NothingNewDestroying(s: State, step: Step)
    requires Enabled(s, step) && !IssuesOrRecords(step) && Destroys(step)
    ensures Moved(s, Apply(s, step), step.DeleteRecord?)
  {
  }

  lemma {:induction false} NothingNewSweeping(s: State, step: Step)
    requires Enabled(s, step) && !IssuesOrRecords(step) && Sweeps(step)
    ensures Moved(s, Apply(s, step), step.DeleteRecord?)
  {
  }

  /** Every step but those of a request that reserves or records. */
  lemma {:induction false} NothingNew(s: State, step: Step)
    requires Enabled(s, step) && !IssuesOrRecords(step)
    ensures Moved(s, Apply(s, step), step.DeleteRecord?)
  {
    if Requests(step) {
      NothingNewRequesting(s, step);
    } else if SetsUp(step) {
      NothingNewSettingUp(s, step);
    } else if Destroys(step) {
      NothingNewDestroying(s, step);
    } else {
      NothingNewSweeping(s, step);
    }
  }

  lemma {:induction false} UniqueRidsMoved(s: State, t: State, deletes: bool)
    requires UniqueRids(s) && Moved(s, t, deletes)
    ensures UniqueRids(t)
  {
  }

  /** What a new request changes for the names of reservations. */
  ghost predicate Requested(s: State, t: State, proc: Proc, rid: Option<ReservationId>) {
    && t.records == s.records && t.recorded == s.recorded
    && (rid.Some? ==> rid.value !in s.issued)
    && t.issued == s.issued + (if rid.Some? then {rid.value} else {}) && t.cloud.Keys <= s.cloud.Keys + t.issued
    && proc in t.requests && t.requests[proc].cap.rid == rid
    && (forall p | p in t.requests && p != proc :: p in s.requests && t.requests[p] == s.requests[p])
  }

  lemma {:induction false} Reserving(s: State, step: Step)
    requires Enabled(s, step) && step.Reserve?
    ensures Requested(s, Apply(s, step), step.proc, step.cap.rid)
  {
  }

  lemma {:induction false} UniqueRidsRequested(s: State, t: State, proc: Proc, rid: Option<ReservationId>)
    requires UniqueRids(s) && Requested(s, t, proc, rid)
    ensures UniqueRids(t)
  {
  }

  lemma {:induction false} UniqueRidsRecorded(s: State, step: Step)
    requires UniqueRids(s) && Enabled(s, step) && step.CreateRecord?
    ensures UniqueRids(Apply(s, step))
  {
  }

  lemma {:induction false} UniqueRidsStep(s: State, step: Step)
    requires UniqueRids(s) && Enabled(s, step)
    ensures UniqueRids(Apply(s, step))
  {
    if step.Reserve? {
      Reserving(s, step);
      UniqueRidsRequested(s, Apply(s, step), step.proc, step.cap.rid);
    } else if step.CreateRecord? {
      UniqueRidsRecorded(s, step);
    } else {
      NothingNew(s, step);
      UniqueRidsMoved(s, Apply(s, step), step.DeleteRecord?);
    }
  }

  lemma {:induction false} DeletingKeepsIff(s: State, step: Step)
    requires UniqueRids(s) && NoLoss(s) && Enabled(s, step) && step.DeleteRecord?
    ensures NoLoss(Apply(s, step)) <==> Covering(s, step)
  {
    var t := Apply(s, step);
    var stage := s.destroyers[step.proc].cap.stage;
    if Covering(s, step) {
      forall rid | rid in t.recorded && rid in t.cloud
        ensures exists x :: x in t.records && t.records[x].rid == Some(rid)
      {
        var x :| x in s.records && s.records[x].rid == Some(rid);
        assert x in t.records;
      }
    } else {
      var rid := s.records[stage].rid.value;
      assert rid in t.recorded && rid in t.cloud;
      assert forall x | x in t.records :: t.records[x].rid != Some(rid);
    }
  }

  /** One step loses a reservation exactly when it deletes a record that is not covered. */
  lemma {:induction false} NoLossStepIff(s: State, step: Step)
    requires UniqueRids(s) && NoLoss(s) && Enabled(s, step)
    ensures NoLoss(Apply(s, step)) <==> Covering(s, step)
  {
    var t := Apply(s, step);
    if step.DeleteRecord? {
      DeletingKeepsIff(s, step);
    } else {
      if !IssuesOrRecords(step) { NothingNew(s, step); }
      forall rid | rid in t.recorded && rid in t.cloud
        ensures exists x :: x in t.records && t.records[x].rid == Some(rid)
      {
        if rid in s.recorded && rid in s.cloud {
          var x :| x in s.records && s.records[x].rid == Some(rid);
          assert x in t.records && t.records[x].rid == Some(rid);
        } else {
          assert t.records[s.requests[step.proc].cap.stage].rid == Some(rid);
        }
      }
    }
  }

  ghost predicate AlwaysKept(s: State, run: Run)
    requires Valid(s, run)
    decreases |run|
  {
    NoLoss(s) && (run == [] || AlwaysKept(Apply(s, run[0]), run[1..]))
  }

  lemma {:induction false} KeptAtTheEnd(s: State, run: Run)
    requires Valid(s, run) && AlwaysKept(s, run)
    ensures NoLoss(Exec(s, run))
    decreases |run|
  {
    if run != [] { KeptAtTheEnd(Apply(s, run[0]), run[1..]); }
  }

  // ---------- Requests that lose nothing ----------

  /** What a capacity request can come to: the reservation made for a stage, and by which driver. */
  datatype Offer = Offer(stage: Stage, rid: Option<ReservationId>, owner: Owner)

  function Offering(cap: Capacity, owner: Owner): Offer {
    Offer(cap.stage, cap.rid, owner)
  }

  /** The requests along a run are among these offers. */
  predicate Drawn(run: Run, offers: set<Offer>) {
    forall k | 0 <= k < |run| && run[k].Reserve? :: Offering(run[k].cap, run[k].owner) in offers
  }

  /** Reservations are made by the driver that also releases them, and no two requests for one
      stage get different ones. */
  predicate Harmless(offers: set<Offer>) {
    && (forall o | o in offers && o.stage != "" && o.rid.Some? :: o.owner == DefaultDriver)
    && (forall o, p | o in offers && p in offers && o.stage == p.stage != "" :: o.rid == p.rid)
  }

  /** A capacity object that one of the offers brought into the system. */
  predicate Offered(s: State, cap: Capacity, offers: set<Offer>) {
    && cap.stage != "" && (cap.rid.Some? ==> cap.rid.value in s.issued)
    && exists owner :: Offering(cap, owner) in offers
  }

  ghost predicate AllOffered(s: State, offers: set<Offer>) {
    && (forall p | p in s.requests :: Offered(s, s.requests[p].cap, offers))
    && (forall p | p in s.destroyers :: Offered(s, s.destroyers[p].cap, offers))
    && (forall c | c in s.held :: Offered(s, c, offers))
    && (forall x | x in s.records :: Offered(s, Of(x, s.records[x]), offers))
  }

  /** Whoever is about to delete has had its reservation released. */
  ghost predicate Released(s: State) {
    && (forall rid | rid in s.cloud :: s.cloud[rid] == DefaultDriver)
    && (forall p | p in s.destroyers && s.destroyers[p].Deleting? && s.destroyers[p].cap.rid.Some? ::
          s.destroyers[p].cap.rid.value !in s.cloud)
  }

  /** Where the capacity objects of a later state come from. */
  ghost predicate FromRecords(s: State, t: State) {
    && (forall c | c in t.held :: c in s.held || (c.stage in s.records && c == Of(c.stage, s.records[c.stage])))
    && (forall p | p in t.destroyers ::
          || (p in s.destroyers && t.destroyers[p].cap == s.destroyers[p].cap)
          || t.destroyers[p].cap in s.held
          || (exists q :: q in s.requests && t.destroyers[p].cap == s.requests[q].cap))
  }

  lemma {:induction false} HeldFromRecordsRequesting(s: State, step: Step)
    requires Enabled(s, step) && Requests(step)
    ensures FromRecords(s, Apply(s, step))
  {
  }

  lemma {:induction false} HeldFromRecordsSettingUp(s: State, step: Step)
    requires Enabled(s, step) && SetsUp(step)
    ensures FromRecords(s, Apply(s, step))
  {
  }

  lemma {:induction false} HeldFromRecordsDestroying(s: State, step: Step)
    requires Enabled(s, step) && Destroys(step)
    ensures FromRecords(s, Apply(s, step))
  {
  }

  lemma {:induction false} HeldFromRecordsSweeping(s: State, step: Step)
    requires Enabled(s, step) && Sweeps(step)
    ensures FromRecords(s, Apply(s, step))
  {
  }

  lemma {:induction false} HeldFromRecords(s: State, step: Step)
    requires Enabled(s, step)
    ensures FromRecords(s, Apply(s, step))
  {
    if Requests(step) {
      HeldFromRecordsRequesting(s, step);
    } else if SetsUp(step) {
      HeldFromRecordsSettingUp(s, step);
    } else if Destroys(step) {
      HeldFromRecordsDestroying(s, step);
    } else {
      HeldFromRecordsSweeping(s, step);
    }
  }

  /** A new request is one of the offers, and a new record is that of a request. */
  lemma {:induction false} OfferedByRequest(s: State, step: Step, offers: set<Offer>)
    requires AllOffered(s, offers) && Enabled(s, step) && Drawn([step], offers) && IssuesOrRecords(step)
    ensures
      var t := Apply(s, step);
      && t.held == s.held && t.destroyers == s.destroyers
      && (forall p | p in t.requests :: Offered(t, t.requests[p].cap, offers))
      && (forall x | x in t.records :: Offered(t, Of(x, t.records[x]), offers))
  {
    assert [step][0] == step;
    var t := Apply(s, step);
    assert s.issued <= t.issued;
    if step.Reserve? {
      assert Offering(step.cap, step.owner) in offers;
      assert Offered(t, step.cap, offers);
    }
  }

  lemma {:induction false} AllOfferedMoved(s: State, t: State, deletes: bool, offers: set<Offer>)
    requires AllOffered(s, offers) && Moved(s, t, deletes) && FromRecords(s, t)
    ensures AllOffered(t, offers)
  {
    forall c | c in t.held ensures Offered(t, c, offers) {
      assert Offered(s, c, offers) by { assert c !in s.held ==> c == Of(c.stage, s.records[c.stage]); }
    }
    forall p | p in t.destroyers ensures Offered(t, t.destroyers[p].cap, offers) {
      assert Offered(s, t.destroyers[p].cap, offers);
    }
    forall p | p in t.requests ensures Offered(t, t.requests[p].cap, offers) {
      assert Offered(s, s.requests[p].cap, offers);
    }
    forall x | x in t.records ensures Offered(t, Of(x, t.records[x]), offers) {
      assert Offered(s, Of(x, s.records[x]), offers);
    }
  }

  lemma {:induction false} AllOfferedStep(s: State, step: Step, offers: set<Offer>)
    requires AllOffered(s, offers) && Enabled(s, step) && Drawn([step], offers)
    ensures AllOffered(Apply(s, step), offers)
  {
    var t := Apply(s, step);
    if IssuesOrRecords(step) {
      OfferedByRequest(s, step, offers);
      forall c | c in t.held ensures Offered(t, c, offers) { assert Offered(s, c, offers) && s.issued <= t.issued; }
      forall p | p in t.destroyers ensures Offered(t, t.destroyers[p].cap, offers) {
        assert Offered(s, s.destroyers[p].cap, offers) && s.issued <= t.issued;
      }
    } else {
      NothingNew(s, step);
      HeldFromRecords(s, step);
      AllOfferedMoved(s, t, step.DeleteRecord?, offers);
    }
  }

  lemma {:induction false} ReleasedStepRequesting(s: State, step: Step, offers: set<Offer>)
    requires Harmless(offers) && AllOffered(s, offers) && Released(s) && Enabled(s, step) && Drawn([step], offers)
    requires Requests(step)
    ensures Released(Apply(s, step))
  {
    assert [step][0] == step;
  }

  lemma {:induction false} ReleasedStepSettingUp(s: State, step: Step, offers: set<Offer>)
    requires Harmless(offers) && AllOffered(s, offers) && Released(s) && Enabled(s, step) && Drawn([step], offers)
    requires SetsUp(step)
    ensures Released(Apply(s, step))
  {
    assert [step][0] == step;
  }

  lemma {:induction false} ReleasedStepDestroying(s: State, step: Step, offers: set<Offer>)
    requires Harmless(offers) && AllOffered(s, offers) && Released(s) && Enabled(s, step) && Drawn([step], offers)
    requires Destroys(step)
    ensures Released(Apply(s, step))
  {
    assert [step][0] == step;
  }

  lemma {:induction false} ReleasedStepSweeping(s: State, step: Step, offers: set<Offer>)
    requires Harmless(offers) && AllOffered(s, offers) && Released(s) && Enabled(s, step) && Drawn([step], offers)
    requires Sweeps(step)
    ensures Released(Apply(s, step))
  {
    assert [step][0] == step;
  }

  lemma {:induction false} ReleasedStep(s: State, step: Step, offers: set<Offer>)
    requires Harmless(offers) && AllOffered(s, offers) && Released(s) && Enabled(s, step) && Drawn([step], offers)
    ensures Released(Apply(s, step))
  {
    if Requests(step) {
      ReleasedStepRequesting(s, step, offers);
    } else if SetsUp(step) {
      ReleasedStepSettingUp(s, step, offers);
    } else if Destroys(step) {
      ReleasedStepDestroying(s, step, offers);
    } else {
      ReleasedStepSweeping(s, step, offers);
    }
  }

  lemma {:induction false} HarmlessCovers(s: State, step: Step, offers: set<Offer>)
    requires Harmless(offers) && AllOffered(s, offers) && Released(s) && Enabled(s, step)
    ensures Covering(s, step)
  {
    if step.DeleteRecord? && s.destroyers[step.proc].cap.stage in s.records {
      var cap := s.destroyers[step.proc].cap;
      assert Offered(s, Of(cap.stage, s.records[cap.stage]), offers) && Offered(s, cap, offers);
    }
  }

  lemma {:induction false} HarmlessRun(s: State, run: Run, offers: set<Offer>)
    requires Harmless(offers) && Drawn(run, offers) && Valid(s, run)
    requires AllOffered(s, offers) && Released(s) && UniqueRids(s) && NoLoss(s)
    ensures AlwaysKept(s, run)
    decreases |run|
  {
    if run != [] {
      assert Drawn([run[0]], offers) && Drawn(run[1..], offers);
      HarmlessCovers(s, run[0], offers);
      NoLossStepIff(s, run[0]);
      UniqueRidsStep(s, run[0]);
      AllOfferedStep(s, run[0], offers);
      ReleasedStep(s, run[0], offers);
      HarmlessRun(Apply(s, run[0]), run[1..], offers);
    }
  }

  /** However requests, setups, destroys and sweeps interleave, no recorded reservation is lost, if
      and only if the requests are harmless. */
  lemma {:induction false} NothingIsLostIff(offers: set<Offer>)
    ensures (forall run | Valid(INIT, run) && Drawn(run, offers) :: AlwaysKept(INIT, run)) <==> Harmless(offers)
  {
    if Harmless(offers) {
      forall run | Valid(INIT, run) && Drawn(run, offers) ensures AlwaysKept(INIT, run) {
        HarmlessRun(INIT, run, offers);
      }
    } else {
      var run := HarmfulRun(offers);
      if AlwaysKept(INIT, run) { KeptAtTheEnd(INIT, run); }
    }
  }

  lemma {:induction false} HarmfulRun(offers: set<Offer>) returns (run: Run)
    requires !Harmless(offers)
    ensures Valid(INIT, run) && Drawn(run, offers) && !NoLoss(Exec(INIT, run))
  {
    if o :| o in offers && o.stage != "" && o.rid.Some? && o.owner != DefaultDriver {
      assert o == Offer(o.stage, o.rid, TenantDriver);
      run := TenantReservationIsLost(Capacity(o.stage, o.rid, None));
    } else {
      var o, p :| o in offers && p in offers && o.stage == p.stage != "" && o.rid != p.rid;
      var a, b := if o.rid.Some? then o else p, if o.rid.Some? then p else o;
      assert a == Offer(a.stage, a.rid, DefaultDriver);
      run := RivalRequestsLose(Capacity(a.stage, a.rid, None), Capacity(b.stage, b.rid, None), b.owner);
    }
  }

  // ---------- The runs that lose a reservation ----------

  lemma {:induction false} ClaimRuns(before: Run, start: State, proc: Proc, offers: set<Offer>)
    returns (run: Run, s: State)
    requires Valid(INIT, before) && Exec(INIT, before) == start && Drawn(before, offers)
    requires proc in start.destroyers && start.destroyers[proc].Claiming?
    ensures Valid(INIT, run) && Exec(INIT, run) == s && Drawn(run, offers)
    ensures s.records.Keys == start.records.Keys && s.recorded == start.recorded && s.cloud == start.cloud
    ensures proc in s.destroyers && s.destroyers[proc] == Calling(start.destroyers[proc].cap)
  {
    run, s := Then(before, start, ClaimForTermination(proc, true));
    assert s.records.Keys == start.records.Keys;
    run, s := Then(run, s, DestroyMachine(proc, true));
  }

  /** One undisturbed DestroyCapacity whose claim and driver call succeed. */
  lemma {:induction false} DestroyRuns(before: Run, start: State, proc: Proc, offers: set<Offer>)
    returns (run: Run, s: State)
    requires Valid(INIT, before) && Exec(INIT, before) == start && Drawn(before, offers)
    requires proc in start.destroyers && start.destroyers[proc].Claiming?
    ensures Valid(INIT, run) && Exec(INIT, run) == s && Drawn(run, offers)
    ensures
      var cap := start.destroyers[proc].cap;
      && cap.stage !in s.records && s.records.Keys <= start.records.Keys && s.recorded == start.recorded
      && (forall rid | rid in start.cloud && (Some(rid) != cap.rid || start.cloud[rid] == TenantDriver) ::
            rid in s.cloud)
  {
    var cap := start.destroyers[proc].cap;
    run, s := ClaimRuns(before, start, proc, offers);
    run, s := Then(run, s, if cap.rid.Some? then DriverReleases(proc) else NothingToRelease(proc));
    assert s.records.Keys == start.records.Keys && s.destroyers[proc] == Deleting(cap);
    run, s := Then(run, s, DeleteRecord(proc));
  }

  lemma {:induction false} BothReserve(a: Capacity, b: Capacity, owner: Owner) returns (run: Run, s: State)
    requires a.stage == b.stage != "" && a.rid != b.rid
    requires a.instance.None? || a.instance != b.instance
    ensures Valid(INIT, run) && Exec(INIT, run) == s && Drawn(run, {Offering(a, DefaultDriver), Offering(b, owner)})
    ensures s.requests == map[1 := Made(a, 0), 2 := Made(b, 0)] && s.destroyers == map[] && s.records == map[]
    ensures a.rid.Some? ==> a.rid.value in s.cloud
  {
    run, s := Then([], INIT, Reserve(1, a, DefaultDriver));
    assert s.requests == map[1 := Made(a, 0)] && 2 !in s.requests;
    run, s := Then(run, s, Reserve(2, b, owner));
  }

  /** Two requests for one stage race, and both find no record. */
  lemma {:induction false} BothFindNothing(a: Capacity, b: Capacity, owner: Owner) returns (run: Run, s: State)
    requires a.stage == b.stage != "" && a.rid != b.rid
    requires a.instance.None? || a.instance != b.instance
    ensures Valid(INIT, run) && Exec(INIT, run) == s && Drawn(run, {Offering(a, DefaultDriver), Offering(b, owner)})
    ensures s.requests == map[1 := Creating(a, 0), 2 := Creating(b, 0)] && s.destroyers == map[] && s.records == map[]
    ensures a.rid.Some? ==> a.rid.value in s.cloud
  {
    run, s := BothReserve(a, b, owner);
    run, s := Then(run, s, CheckRecord(1));
    run, s := Then(run, s, CheckRecord(2));
  }

  /** One of them stores its record. The other cannot, and its compensation, which works by stage,
      removes that record without releasing the reservation it names. */
  lemma {:induction false} RivalRequestsLose(a: Capacity, b: Capacity, owner: Owner) returns (run: Run)
    requires a.stage == b.stage != "" && a.rid.Some? && a.rid != b.rid
    requires a.instance.None? || a.instance != b.instance
    ensures Valid(INIT, run) && Drawn(run, {Offering(a, DefaultDriver), Offering(b, owner)}) && !NoLoss(Exec(INIT, run))
  {
    var s;
    run, s := BothFindNothing(a, b, owner);
    run, s := Then(run, s, CreateRecord(1));
    assert s.records.Keys == {a.stage} && a.rid.value in s.recorded && 2 in s.requests;
    run, s := Then(run, s, CreateFails(2, 2));
    assert s.destroyers[2] == Claiming(b);
    run, s := DestroyRuns(run, s, 2, {Offering(a, DefaultDriver), Offering(b, owner)});
    assert a.rid.value in s.recorded && a.rid.value in s.cloud && s.records == map[];
  }

  lemma {:induction false} RecordedAndRead(cap: Capacity) returns (run: Run, s: State)
    requires cap.stage != "" && cap.rid.Some?
    ensures Valid(INIT, run) && Exec(INIT, run) == s && Drawn(run, {Offering(cap, TenantDriver)})
    ensures cap in s.held && s.records.Keys == {cap.stage} && s.cloud == map[cap.rid.value := TenantDriver]
    ensures cap.rid.value in s.recorded && s.requests == map[] && s.destroyers == map[] && s.sweeps == map[]
  {
    run, s := Then([], INIT, Reserve(1, cap, TenantDriver));
    assert s.requests == map[1 := Made(cap, 0)] && s.cloud == map[cap.rid.value := TenantDriver];
    run, s := Then(run, s, CheckRecord(1));
    run, s := Then(run, s, CreateRecord(1));
    assert s.requests == map[] && Read(s, [cap.stage]) == {cap} by { assert cap.stage in [cap.stage]; }
    run, s := Then(run, s, ReadRecord(cap.stage));
  }

  /** A reservation made through a tenant's own driver is unknown to the default driver, which
      reports it gone, so its record is deleted while it still exists. */
  lemma {:induction false} TenantReservationIsLost(cap: Capacity) returns (run: Run)
    requires cap.stage != "" && cap.rid.Some?
    ensures Valid(INIT, run) && Drawn(run, {Offering(cap, TenantDriver)}) && !NoLoss(Exec(INIT, run))
  {
    var s;
    run, s := RecordedAndRead(cap);
    run, s := Then(run, s, StartDestroy(2, cap));
    run, s := DestroyRuns(run, s, 2, {Offering(cap, TenantDriver)});
    assert cap.rid.value in s.recorded && cap.rid.value in s.cloud && s.records == map[];
  }
}
