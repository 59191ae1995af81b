/** What the operations on capacity reservations leave, row by row, when nobody else acts. */
module ReservationEffects {
  import opened Options
  import opened Reservations
  import opened ReservationDesk

  // ---------- One capacity destroyed ----------

  predicate OthersStay(s: map<Stage, Record>, t: map<Stage, Record>, stage: Stage) {
    && t.Keys <= s.Keys && (forall x | x in s && x != stage :: x in t && t[x] == s[x])
  }

  /** The record goes when there is nothing to release or the release succeeds; otherwise it stays,
      terminating if the claim succeeded. */
  predicate RecordAfter(s: map<Stage, Record>, t: map<Stage, Record>, cap: Capacity, a: Answers) {
    && OthersStay(s, t, cap.stage)
    && (cap.rid.None? || a.driver ==> cap.stage !in t)
    && (cap.rid.Some? && !a.driver && cap.stage in s ==>
          cap.stage in t && t[cap.stage] == if a.claim then s[cap.stage].(state := Terminating) else s[cap.stage])
  }

  /** A reservation leaves the cloud exactly when the driver answers and made it itself. */
  predicate CloudAfter(s: map<ReservationId, Owner>, t: map<ReservationId, Owner>, cap: Capacity, a: Answers) {
    && t.Keys <= s.Keys && (forall r | r in t :: t[r] == s[r])
    && (forall r | r in s :: r !in t <==> cap.rid == Some(r) && a.driver && s[r] == DefaultDriver)
  }

  /** A warm instance is gone exactly when its driver could destroy it. */
  predicate MachinesAfter(s: set<InstanceId>, t: set<InstanceId>, cap: Capacity, a: Answers) {
    t <= s && (forall m | m in s :: m !in t <==> cap.instance == Some(m) && a.machine)
  }

  predicate Disposed(s: State, t: State, cap: Capacity, a: Answers) {
    RecordAfter(s.records, t.records, cap, a) && CloudAfter(s.cloud, t.cloud, cap, a) &&
      MachinesAfter(s.machines, t.machines, cap, a)
  }

  /** A destroy with nobody else acting, by what is left of the record, the reservation and the
      instance. */
  method DestroyAlone(desk: Desk, proc: Proc, cap: Capacity, a: Answers) returns (ok: bool)
    requires desk.Faithful() && Idle(desk.s, proc) && cap in desk.s.held
    modifies desk
    ensures desk.Faithful() && ok == (cap.rid.None? || a.driver)
    ensures Disposed(old(desk.s), desk.s, cap, a)
  {
    ok := desk.DestroyCapacity(proc, cap, a, [], [], []);
  }

  // ---------- One reservation recorded ----------

  /** Without a record for its stage, and if it can be stored, the new reservation and its instance are
      kept and recorded. One that finds a record is kept all the same; one that cannot be stored is
      given back as far as the driver answers and made it itself. */
  ghost predicate Filed(s: State, t: State, cap: Capacity, owner: Owner, storeOk: bool, a: Answers, stored: bool) {
    && stored == (storeOk && cap.stage !in s.records)
    && OthersStay(t.records, s.records, cap.stage)
    && (cap.stage in t.records <==> stored || cap.stage in s.records)
    && (cap.stage in s.records ==> t.records == s.records)
    && (forall r | cap.rid != Some(r) :: r in t.cloud <==> r in s.cloud)
    && (cap.rid.Some? ==>
          (cap.rid.value in t.cloud <==> stored || cap.stage in s.records || !a.driver || owner == TenantDriver))
    && (forall m | cap.instance != Some(m) :: m in t.machines <==> m in s.machines)
    && (cap.instance.Some? ==>
          (cap.instance.value in t.machines <==> stored || cap.stage in s.records || !a.machine))
  }

  method RecordAlone(desk: Desk, proc: Proc, cap: Capacity, owner: Owner, storeOk: bool, a: Answers)
    returns (stored: bool)
    requires desk.Faithful() && Enabled(desk.s, Reserve(proc, cap, owner))
    modifies desk
    ensures desk.Faithful() && Filed(old(desk.s), desk.s, cap, owner, storeOk, a, stored)
  {
    stored := desk.RecordReservation(proc, cap, owner, storeOk, a, [], []);
  }

  // ---------- One sweep ----------

  /** What a sweep takes: records older than the limit that are stuck terminating, that nobody used, or
      whose stage has no instance that the look-up finds. */
  predicate Overdue(s: State, x: Stage, age: nat, q: Lookups) {
    && x in s.records && s.now - s.records[x].createdAt > age
    && match s.records[x].state
       case Terminating => q.stuck
       case Created => q.unused && x !in q.locked
       case InUse => q.inUse && (x in q.blind || x !in s.setups || !s.setups[x].tagged)
  }

  lemma {:induction false} CollectedIsOverdue(s: State, age: nat, q: Lookups, x: Stage)
    ensures x in Collected(s, s.now - age, q) <==> Overdue(s, x, age, q)
  {
  }

  /** Records that are not overdue are untouched; of the others exactly those stay, terminating, whose
      release fails. */
  predicate RecordsSwept(s: State, t: State, age: nat, q: Lookups, failing: set<Stage>) {
    && t.records.Keys <= s.records.Keys
    && (forall x | x in s.records && !Overdue(s, x, age, q) :: x in t.records && t.records[x] == s.records[x])
    && (forall x | x in s.records && Overdue(s, x, age, q) ::
          if s.records[x].rid.Some? && x in failing
          then x in t.records && t.records[x] == s.records[x].(state := Terminating)
          else x !in t.records)
  }

  /** Some overdue record that can be released names this reservation. */
  predicate LetGo(s: State, r: ReservationId, age: nat, q: Lookups, failing: set<Stage>) {
    exists x | x in s.records :: Overdue(s, x, age, q) && s.records[x].rid == Some(r) && x !in failing
  }

  predicate CloudSwept(s: State, t: State, age: nat, q: Lookups, failing: set<Stage>) {
    && t.cloud.Keys <= s.cloud.Keys && (forall r | r in t.cloud :: t.cloud[r] == s.cloud[r])
    && forall r | r in s.cloud :: r !in t.cloud <==> s.cloud[r] == DefaultDriver && LetGo(s, r, age, q, failing)
  }

  predicate ThrownOut(s: State, m: InstanceId, age: nat, q: Lookups, broken: set<Stage>) {
    exists x | x in s.records :: Overdue(s, x, age, q) && s.records[x].instance == Some(m) && x !in broken
  }

  predicate MachinesSwept(s: State, t: State, age: nat, q: Lookups, broken: set<Stage>) {
    t.machines <= s.machines && forall m | m in s.machines :: m !in t.machines <==> ThrownOut(s, m, age, q, broken)
  }

  lemma {:induction false} SweepsRecords(s: State, t: State, age: nat, q: Lookups, failing: set<Stage>)
    requires
      var collected := Collected(s, s.now - age, q);
      t.records == Claimed(s.records, collected) - Forgotten(Capacities(s.records, collected), failing)
    ensures RecordsSwept(s, t, age, q, failing)
  {
    var collected := Collected(s, s.now - age, q);
    forall x ensures x in collected <==> Overdue(s, x, age, q) { CollectedIsOverdue(s, age, q, x); }
    var caps := Capacities(s.records, collected);
    forall x | x in s.records
      ensures x in Forgotten(caps, failing) <==> x in collected && (s.records[x].rid.None? || x !in failing)
    {
      if x in collected { assert Of(x, s.records[x]) in caps; }
    }
  }

  lemma {:induction false} SweepsCloud(s: State, t: State, age: nat, q: Lookups, failing: set<Stage>)
    requires t.cloud == s.cloud - Let(s.cloud, Capacities(s.records, Collected(s, s.now - age, q)), failing)
    ensures CloudSwept(s, t, age, q, failing)
  {
    var collected := Collected(s, s.now - age, q);
    var caps := Capacities(s.records, collected);
    forall r | r in s.cloud
      ensures r in Let(s.cloud, caps, failing) <==> s.cloud[r] == DefaultDriver && LetGo(s, r, age, q, failing)
    {
      if r in Let(s.cloud, caps, failing) {
        var c :| c in caps && c.rid == Some(r) && c.stage !in failing;
        CollectedIsOverdue(s, age, q, c.stage);
        assert s.records[c.stage].rid == Some(r);
      }
      if s.cloud[r] == DefaultDriver && LetGo(s, r, age, q, failing) {
        var x :| x in s.records && Overdue(s, x, age, q) && s.records[x].rid == Some(r) && x !in failing;
        CollectedIsOverdue(s, age, q, x);
        assert Of(x, s.records[x]) in caps;
      }
    }
  }

  lemma {:induction false} SweepsMachines(s: State, t: State, age: nat, q: Lookups, broken: set<Stage>)
    requires t.machines == s.machines - Gone(Capacities(s.records, Collected(s, s.now - age, q)), broken)
    ensures MachinesSwept(s, t, age, q, broken)
  {
    var collected := Collected(s, s.now - age, q);
    var caps := Capacities(s.records, collected);
    forall m | m in s.machines ensures m in Gone(caps, broken) <==> ThrownOut(s, m, age, q, broken) {
      if m in Gone(caps, broken) {
        var c :| c in caps && c.instance == Some(m) && c.stage !in broken;
        CollectedIsOverdue(s, age, q, c.stage);
        assert s.records[c.stage].instance == Some(m);
      }
      if ThrownOut(s, m, age, q, broken) {
        var x :| x in s.records && Overdue(s, x, age, q) && s.records[x].instance == Some(m) && x !in broken;
        CollectedIsOverdue(s, age, q, x);
        assert Of(x, s.records[x]) in caps;
      }
    }
  }

  /** What a sweep leaves: of the records, of the reservations in the cloud, of the warm instances. */
  predicate Swept(s: State, t: State, age: nat, q: Lookups, failing: set<Stage>, broken: set<Stage>) {
    RecordsSwept(s, t, age, q, failing) && CloudSwept(s, t, age, q, failing) && MachinesSwept(s, t, age, q, broken)
  }

  /** The state a sweep leads to when nobody else acts. */
  predicate SweptQuietly(s: State, t: State, age: nat, q: Lookups, failing: set<Stage>, broken: set<Stage>) {
    var collected := Collected(s, s.now - age, q);
    var taken := Capacities(s.records, collected);
    && t.records == Claimed(s.records, collected) - Forgotten(taken, failing)
    && t.cloud == s.cloud - Let(s.cloud, taken, failing)
    && t.machines == s.machines - Gone(taken, broken)
  }

  lemma {:induction false} SweepsByRow(s: State, t: State, age: nat, q: Lookups, failing: set<Stage>,
                                       broken: set<Stage>)
    requires SweptQuietly(s, t, age, q, failing, broken)
    ensures Swept(s, t, age, q, failing, broken)
  {
    SweepsRecords(s, t, age, q, failing);
    SweepsCloud(s, t, age, q, failing);
    SweepsMachines(s, t, age, q, broken);
  }

  method SweepQuietly(desk: Desk, proc: Proc, age: nat, q: Lookups, failing: set<Stage>, broken: set<Stage>)
    requires desk.Faithful() && Idle(desk.s, proc)
    modifies desk
    ensures desk.Faithful() && Idle(desk.s, proc)
    ensures SweptQuietly(old(desk.s), desk.s, age, q, failing, broken)
  {
    desk.CleanupCapacities(proc, age, q, failing, broken, [], [], [], []);
  }

  /** A whole sweep with nobody else acting. */
  method SweepAlone(desk: Desk, proc: Proc, age: nat, q: Lookups, failing: set<Stage>, broken: set<Stage>)
    requires desk.Faithful() && Idle(desk.s, proc)
    modifies desk
    ensures desk.Faithful() && Idle(desk.s, proc)
    ensures Swept(old(desk.s), desk.s, age, q, failing, broken)
  {
    ghost var before := desk.s;
    SweepQuietly(desk, proc, age, q, failing, broken);
    SweepsByRow(before, desk.s, age, q, failing, broken);
  }
}
