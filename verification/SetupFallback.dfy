/** Setting up a stage's machine: pools are tried in order, and what a failed attempt provisioned is
    destroyed by a clean-up goroutine that runs whenever it likes. */
module SetupFallback {
  import opened Options

  type Id = string

  /** The reservation claimed for this stage: its pool, and its instance when one is held warm. */
  datatype Capacity = Capacity(pool: string, instance: Option<Id>)

  /** What one attempt meets: the clean-ups that run before it, by their place among the pending
      ones, and its own fate. `spare` is what provisioning hands out when it does not use the
      reserved instance: a hot or a new one, in either case given to nobody before. */
  datatype Attempt = Attempt(cleanUps: seq<nat>, provisions: bool, spare: Id, hibernated: bool, starts: bool,
                             connects: bool, healthy: bool, setsUp: bool)

  /** The machines of one request: those that exist, the clean-ups not run yet, what provisioning
      returned and what was given up again. */
  datatype Ledger = Ledger(live: set<Id>, pending: seq<Id>, taken: set<Id>, failed: set<Id>)

  datatype Outcome = Outcome(ledger: Ledger, machine: Option<Id>)

  /** The pools of a request, the requested one first. */
  function Requested(pool: string, fallbacks: seq<string>, configured: seq<string>): (pools: seq<string>)
    ensures pools != [] && pools[0] == pool
    ensures fallbacks != [] ==> pools[1..] == fallbacks
    ensures fallbacks == [] ==> pools[1..] == configured
  {
    [pool] + if fallbacks == [] && configured != [] then configured else fallbacks
  }

  /** The list with the first occurrence of a name moved to the front. */
  function Fronted(pools: seq<string>, name: string): seq<string> {
    if name !in pools then pools
    else if pools[0] == name then pools
    else
      var rest := Fronted(pools[1..], name);
      [name, pools[0]] + rest[1..]
  }

  lemma {:induction false} FrontedShape(pools: seq<string>, name: string)
    requires name in pools
    ensures |Fronted(pools, name)| == |pools| && Fronted(pools, name)[0] == name
    ensures multiset(Fronted(pools, name)) == multiset(pools)
  {
    if pools[0] != name {
      FrontedShape(pools[1..], name);
      var rest := Fronted(pools[1..], name);
      assert pools == [pools[0]] + pools[1..] && rest == [rest[0]] + rest[1..];
      assert Fronted(pools, name) == [name] + ([pools[0]] + rest[1..]);
      assert multiset(Fronted(pools, name)) == multiset{name} + (multiset{pools[0]} + multiset(rest[1..]));
      assert multiset(rest) == multiset{name} + multiset(rest[1..]);
    }
  }

  /** Behind the front, the list is the request with one entry taken out, in the same order. */
  lemma {:induction false} FrontedKeepsOrder(pools: seq<string>, name: string, i: nat)
    requires i < |pools| && pools[i] == name && name !in pools[..i]
    ensures Fronted(pools, name) == [name] + pools[..i] + pools[i + 1..]
    decreases i
  {
    if i > 0 {
      assert pools[0] in pools[..i] && pools[1..][..i - 1] == pools[..i][1..];
      FrontedKeepsOrder(pools[1..], name, i - 1);
      assert pools[..i] == [pools[0]] + pools[1..][..i - 1] && pools[1..][i..] == pools[i + 1..];
    }
  }

  method MoveToFront(pools: seq<string>, name: string) returns (moved: seq<string>)
    ensures moved == Fronted(pools, name)
  {
    for i := 0 to |pools|
      invariant name !in pools[..i]
    {
      if pools[i] == name {
        FrontedKeepsOrder(pools, name, i);
        if i != 0 { return [name] + pools[..i] + pools[i + 1..]; }
        return pools;
      }
      assert pools[..i + 1] == pools[..i] + [pools[i]];
    }
    assert pools[..|pools|] == pools;
    return pools;
  }

  // ---------- One attempt ----------

  predicate Succeeds(a: Attempt) {
    (a.hibernated ==> a.starts) && a.connects && a.healthy && a.setsUp
  }

  /** The reserved instance, when this pool holds one that still exists. */
  predicate Holds(live: set<Id>, pool: string, capacity: Option<Capacity>) {
    capacity.Some? && pool == capacity.value.pool && capacity.value.instance.Some? &&
      capacity.value.instance.value in live
  }

  /** What provisioning gives an attempt: the reserved instance while it exists, a spare otherwise. */
  function Given(live: set<Id>, known: bool, pool: string, capacity: Option<Capacity>, a: Attempt): Option<Id> {
    if !known then None
    else if Holds(live, pool, capacity) then capacity.value.instance
    else if a.provisions then Some(a.spare) else None
  }

  function Tried(l: Ledger, known: bool, pool: string, capacity: Option<Capacity>, a: Attempt): Outcome {
    var given := Given(l.live, known, pool, capacity, a);
    if given.None? then Outcome(l, None)
    else
      var m := l.(live := l.live + {given.value}, taken := l.taken + {given.value});
      if Succeeds(a) then Outcome(m, given)
      else Outcome(m.(pending := m.pending + [given.value], failed := m.failed + {given.value}), None)
  }

  // ---------- Clean-ups ----------

  function CleanedUp(l: Ledger, i: nat): Ledger
    requires i < |l.pending|
  {
    l.(live := l.live - {l.pending[i]}, pending := l.pending[..i] + l.pending[i + 1..])
  }

  function Picked(l: Ledger, i: nat): Ledger {
    if i < |l.pending| then CleanedUp(l, i) else l
  }

  /** Some of the clean-ups have run, in any order. */
  function Cleaned(l: Ledger, picks: seq<nat>): Ledger
    decreases |picks|
  {
    if picks == [] then l else Cleaned(Picked(l, picks[0]), picks[1..])
  }

  /** All of them have run. */
  function Settled(l: Ledger): Ledger {
    l.(live := l.live - (set id | id in l.pending), pending := [])
  }

  // ---------- A whole request ----------

  function AllTried(l: Ledger, pools: seq<string>, mapped: string -> string, known: string -> bool,
                    capacity: Option<Capacity>, attempts: seq<Attempt>): Outcome
    requires |attempts| == |pools|
    decreases |pools|
  {
    if pools == [] then Outcome(l, None)
    else
      var pool := mapped(pools[0]);
      var next := Tried(Cleaned(l, attempts[0].cleanUps), known(pool), pool, capacity, attempts[0]);
      if next.machine.Some? then next
      else AllTried(next.ledger, pools[1..], mapped, known, capacity, attempts[1..])
  }

  function Order(pools: seq<string>, capacity: Option<Capacity>): (order: seq<string>)
    ensures |order| == |pools|
  {
    if capacity.None? then pools
    else
      assert capacity.value.pool in pools ==> |Fronted(pools, capacity.value.pool)| == |pools| by {
        if capacity.value.pool in pools { FrontedShape(pools, capacity.value.pool); }
      }
      Fronted(pools, capacity.value.pool)
  }

  /** The instance that giving up a reservation destroys. */
  function Returned(known: string -> bool, capacity: Option<Capacity>): set<Id> {
    if capacity.Some? && known(capacity.value.pool) && capacity.value.instance.Some?
      then {capacity.value.instance.value}
    else {}
  }

  function Dropped(l: Ledger, ids: set<Id>): Ledger {
    l.(live := l.live - ids, failed := l.failed + ids)
  }

  /** A whole request: the pool of the claimed reservation goes first, and a machine whose stage
      cannot be recorded is destroyed at once, with the reserved instance. */
  function Served(l: Ledger, pools: seq<string>, mapped: string -> string, known: string -> bool,
                  capacity: Option<Capacity>, attempts: seq<Attempt>, recorded: bool): Outcome
    requires |attempts| == |pools|
  {
    var end := AllTried(l, Order(pools, capacity), mapped, known, capacity, attempts);
    if end.machine.None? || recorded then end
    else Outcome(Dropped(end.ledger, {end.machine.value} + Returned(known, capacity)), None)
  }

  class Setup {
    var live: set<Id>          // instances that exist
    var pending: seq<Id>       // clean-up goroutines not run yet
    ghost var taken: set<Id>
    ghost var failed: set<Id>

    ghost function Now(): Ledger
      reads this
    {
      Ledger(live, pending, taken, failed)
    }

    constructor (live: set<Id>)
      ensures Now() == Ledger(live, [], {}, {})
    {
      this.live := live;
      pending, taken, failed := [], {}, {};
    }

    /** One pending clean-up runs. */
    method CleanUp(i: nat)
      requires i < |pending|
      modifies this`live, this`pending
      ensures Now() == CleanedUp(old(Now()), i)
    {
      live := live - {pending[i]};
      pending := pending[..i] + pending[i + 1..];
    }

    /** Some of the clean-ups run, in any order. */
    method Meanwhile(picks: seq<nat>)
      modifies this`live, this`pending
      ensures Now() == Cleaned(old(Now()), picks)
    {
      assert picks[0..] == picks;
      for k := 0 to |picks|
        invariant Cleaned(old(Now()), picks) == Cleaned(Now(), picks[k..])
        invariant taken == old(taken) && failed == old(failed)
      {
        assert picks[k..][0] == picks[k] && picks[k..][1..] == picks[k + 1..];
        if picks[k] < |pending| { CleanUp(picks[k]); }
      }
    }

    /** All clean-ups run. */
    method Settle()
      modifies this`live, this`pending
      ensures Now() == Settled(old(Now()))
    {
      assert pending[0..] == pending;
      for i := 0 to |pending|
        invariant pending == old(pending) && taken == old(taken) && failed == old(failed)
        invariant live == old(live) - set id | id in old(pending)[..i]
      {
        assert old(pending)[..i + 1] == old(pending)[..i] + [pending[i]];
        live := live - {pending[i]};
      }
      assert old(pending)[..|pending|] == old(pending);
      pending := [];
    }

    /** The instance of one attempt: the reserved one while it exists, a spare one otherwise. */
    method Provision(reserved: Option<Capacity>, a: Attempt) returns (id: Option<Id>)
      modifies this`live, this`taken
      ensures id == Given(old(live), true, if reserved.Some? then reserved.value.pool else "", reserved, a)
      ensures id.Some? ==> live == old(live) + {id.value} && taken == old(taken) + {id.value}
      ensures id.None? ==> live == old(live) && taken == old(taken)
    {
      if reserved.Some? && reserved.value.instance.Some? && reserved.value.instance.value in live {
        id := reserved.value.instance;
      } else if a.provisions {
        id := Some(a.spare);
      } else {
        return None;
      }
      live, taken := live + {id.value}, taken + {id.value};
    }

    /** One attempt in one pool: provision, resume if hibernated, connect, check health, set up. */
    method TryPool(known: bool, pool: string, capacity: Option<Capacity>, a: Attempt) returns (got: Option<Id>)
      modifies this
      ensures Outcome(Now(), got) == Tried(old(Now()), known, pool, capacity, a)
      ensures got.Some? ==>
        && known && (a.hibernated ==> a.starts) && a.connects && a.healthy && a.setsUp
        && got.value in live && pending == old(pending) && failed == old(failed)
        && ((got == Some(a.spare) && a.provisions) || (capacity.Some? && got == capacity.value.instance))
      ensures
        capacity.Some? && pool == capacity.value.pool && capacity.value.instance.Some? ==>
          capacity.value.instance.value in old(live) ==> got.None? || got == capacity.value.instance
      ensures capacity.Some? && pool != capacity.value.pool && got.Some? ==> got == Some(a.spare)
      ensures got.None? && pending != old(pending) ==>
        && |pending| == |old(pending)| + 1 && pending[..|old(pending)|] == old(pending)
        && live == old(live) + {pending[|old(pending)|]} && failed == old(failed) + {pending[|old(pending)|]}
      ensures got.None? && pending == old(pending) ==> live == old(live)
    {
      if !known { return None; }
      var reserved := if capacity.Some? && pool != capacity.value.pool then None else capacity;
      var id := Provision(reserved, a);
      if id.None? { return None; }
      if (a.hibernated && !a.starts) || !a.connects || !a.healthy || !a.setsUp {
        pending, failed := pending + [id.value], failed + {id.value};
        return None;
      }
      return id;
    }

    /** Tries the pools in order and returns the first machine that comes up. */
    method TryPools(pools: seq<string>, mapped: string -> string, known: string -> bool, capacity: Option<Capacity>,
                    attempts: seq<Attempt>) returns (got: Option<Id>)
      requires |attempts| == |pools|
      modifies this
      ensures Outcome(Now(), got) == AllTried(old(Now()), pools, mapped, known, capacity, attempts)
    {
      assert pools[0..] == pools && attempts[0..] == attempts;
      for at := 0 to |pools|
        invariant AllTried(old(Now()), pools, mapped, known, capacity, attempts)
               == AllTried(Now(), pools[at..], mapped, known, capacity, attempts[at..])
      {
        assert pools[at..][0] == pools[at] && pools[at..][1..] == pools[at + 1..];
        assert attempts[at..][0] == attempts[at] && attempts[at..][1..] == attempts[at + 1..];
        Meanwhile(attempts[at].cleanUps);
        var pool := mapped(pools[at]);
        got := TryPool(known(pool), pool, capacity, attempts[at]);
        if got.Some? { return; }
      }
      return None;
    }

    /** A whole setup request, without the clean-ups still pending when it answers. */
    method HandleSetup(pool: string, fallbacks: seq<string>, configured: seq<string>, mapped: string -> string,
                       known: string -> bool, capacity: Option<Capacity>, attempts: seq<Attempt>, recorded: bool)
      returns (machine: Option<Id>)
      requires |attempts| == |Requested(pool, fallbacks, configured)|
      modifies this
      ensures Outcome(Now(), machine) ==
        Served(old(Now()), Requested(pool, fallbacks, configured), mapped, known, capacity, attempts, recorded)
    {
      var order := Requested(pool, fallbacks, configured);
      if capacity.Some? { order := MoveToFront(order, capacity.value.pool); }
      assert order == Order(Requested(pool, fallbacks, configured), capacity);
      machine := TryPools(order, mapped, known, capacity, attempts);
      if machine.Some? && !recorded {
        var gone := {machine.value} + Returned(known, capacity);
        live, failed := live - gone, failed + gone;
        machine := None;
      }
    }
  }

  // ---------- Every machine is accounted for ----------

  /** What one ledger is to the instances there were at the start: given-up machines are gone or
      about to be cleaned up, and nothing else is. */
  ghost predicate Accounted(before: set<Id>, l: Ledger) {
    && before + l.taken - l.failed <= l.live <= before + l.taken
    && (forall id | id in l.pending :: id in l.failed)
    && (forall id | id in l.failed && id in l.live :: id in l.pending)
  }

  /** Every provisioning attempt has a spare of its own, none of them the reserved instance. */
  predicate OwnSpares(capacity: Option<Capacity>, attempts: seq<Attempt>) {
    && (forall j, k | 0 <= j < k < |attempts| && attempts[j].provisions && attempts[k].provisions ::
          attempts[j].spare != attempts[k].spare)
    && (forall k | 0 <= k < |attempts| && attempts[k].provisions && capacity.Some? ::
          capacity.value.instance != Some(attempts[k].spare))
  }

  /** No spare to come has been given up already. */
  predicate SparesLeft(l: Ledger, attempts: seq<Attempt>) {
    forall k | 0 <= k < |attempts| && attempts[k].provisions :: attempts[k].spare !in l.failed
  }

  lemma {:induction false} CleanedKeeps(before: set<Id>, l: Ledger, picks: seq<nat>)
    requires Accounted(before, l)
    ensures
      var m := Cleaned(l, picks);
      && Accounted(before, m) && m.taken == l.taken && m.failed == l.failed && m.live <= l.live
    decreases |picks|
  {
    if picks != [] {
      var i, m := picks[0], Picked(l, picks[0]);
      if i < |l.pending| {
        assert forall id | id in l.pending :: id == l.pending[i] || id in l.pending[..i] || id in l.pending[i + 1..];
      }
      assert Accounted(before, m);
      CleanedKeeps(before, m, picks[1..]);
    }
  }

  lemma {:induction false} TriedKeeps(before: set<Id>, l: Ledger, known: bool, pool: string,
                                      capacity: Option<Capacity>, a: Attempt)
    requires Accounted(before, l) && (a.provisions ==> a.spare !in l.failed)
    ensures
      var next := Tried(l, known, pool, capacity, a);
      && Accounted(before, next.ledger)
      && next.ledger.taken - next.ledger.failed <=
         l.taken - l.failed + (if next.machine.Some? then {next.machine.value} else {})
  {
    var next := Tried(l, known, pool, capacity, a);
    forall id | id in next.ledger.failed && id in next.ledger.live ensures id in next.ledger.pending {
      if id in l.failed { assert id in l.live ==> id in l.pending; }
    }
  }

  lemma {:induction false} AllTriedKeeps(before: set<Id>, l: Ledger, pools: seq<string>, mapped: string -> string,
                                         known: string -> bool, capacity: Option<Capacity>, attempts: seq<Attempt>)
    requires Accounted(before, l) && l.taken <= l.failed
    requires |attempts| == |pools| && SparesLeft(l, attempts) && OwnSpares(capacity, attempts)
    ensures
      var end := AllTried(l, pools, mapped, known, capacity, attempts);
      && Accounted(before, end.ledger)
      && end.ledger.taken <= end.ledger.failed + (if end.machine.Some? then {end.machine.value} else {})
    decreases |pools|
  {
    if pools != [] {
      var m, pool := Cleaned(l, attempts[0].cleanUps), mapped(pools[0]);
      CleanedKeeps(before, l, attempts[0].cleanUps);
      TriedKeeps(before, m, known(pool), pool, capacity, attempts[0]);
      var next := Tried(m, known(pool), pool, capacity, attempts[0]);
      if next.machine.None? {
        SparesStayLeft(m, known(pool), pool, capacity, attempts);
        AllTriedKeeps(before, next.ledger, pools[1..], mapped, known, capacity, attempts[1..]);
      }
    }
  }

  lemma {:induction false} SparesStayLeft(l: Ledger, known: bool, pool: string, capacity: Option<Capacity>,
                                          attempts: seq<Attempt>)
    requires attempts != [] && SparesLeft(l, attempts) && OwnSpares(capacity, attempts)
    ensures SparesLeft(Tried(l, known, pool, capacity, attempts[0]).ledger, attempts[1..])
    ensures OwnSpares(capacity, attempts[1..])
  {
    assert forall k | 0 <= k < |attempts[1..]| :: attempts[1..][k] == attempts[k + 1];
  }

  /** When a request is answered and all its clean-ups have run, exactly what it gave up is gone. A
      request that fails has given up everything it took, one that succeeds everything but its machine. */
  lemma {:induction false} NothingIsLeftBehind(live: set<Id>, pools: seq<string>, mapped: string -> string,
                                               known: string -> bool, capacity: Option<Capacity>,
                                               attempts: seq<Attempt>, recorded: bool)
    requires |attempts| == |pools| && OwnSpares(capacity, attempts)
    ensures
      var end := Served(Ledger(live, [], {}, {}), pools, mapped, known, capacity, attempts, recorded);
      && Settled(end.ledger).live == live + end.ledger.taken - end.ledger.failed
      && end.ledger.taken <= end.ledger.failed + (if end.machine.Some? then {end.machine.value} else {})
      && (end.machine.Some? ==> recorded && end.machine.value in end.ledger.taken)
  {
    var l := Ledger(live, [], {}, {});
    AllTriedKeeps(live, l, Order(pools, capacity), mapped, known, capacity, attempts);
    MachineIsTaken(l, Order(pools, capacity), mapped, known, capacity, attempts);
  }

  lemma {:induction false} MachineIsTaken(l: Ledger, pools: seq<string>, mapped: string -> string,
                                          known: string -> bool, capacity: Option<Capacity>, attempts: seq<Attempt>)
    requires |attempts| == |pools|
    ensures
      var end := AllTried(l, pools, mapped, known, capacity, attempts);
      end.machine.Some? ==> end.machine.value in end.ledger.taken
    decreases |pools|
  {
    if pools != [] {
      var pool := mapped(pools[0]);
      var next := Tried(Cleaned(l, attempts[0].cleanUps), known(pool), pool, capacity, attempts[0]);
      if next.machine.None? { MachineIsTaken(next.ledger, pools[1..], mapped, known, capacity, attempts[1..]); }
    }
  }

  /** An attempt that brings up a machine whatever happened before it. */
  predicate MustSucceed(a: Attempt, known: bool) {
    known && a.provisions && (!a.hibernated || a.starts) && a.connects && a.healthy && a.setsUp
  }

  /** Where a machine came from: the spare of a successful attempt, or the reserved instance. */
  predicate ComesFrom(machine: Id, a: Attempt, known: bool, pool: string, capacity: Option<Capacity>) {
    && known && (!a.hibernated || a.starts) && a.connects && a.healthy && a.setsUp
    && ((a.provisions && machine == a.spare)
        || (capacity.Some? && pool == capacity.value.pool && capacity.value.instance == Some(machine)))
  }

  /** The pools are tried in order and the first attempt that succeeds answers: `at` is its position,
      or the number of pools when the request fails. */
  lemma {:induction false} FirstSuccessAnswers(l: Ledger, pools: seq<string>, mapped: string -> string,
                                               known: string -> bool, capacity: Option<Capacity>,
                                               attempts: seq<Attempt>) returns (at: nat)
    requires |attempts| == |pools|
    ensures
      var end := AllTried(l, pools, mapped, known, capacity, attempts);
      && at <= |pools| && (end.machine.None? <==> at == |pools|)
      && (forall j | 0 <= j < at :: !MustSucceed(attempts[j], known(mapped(pools[j]))))
      && (at < |pools| ==>
            ComesFrom(end.machine.value, attempts[at], known(mapped(pools[at])), mapped(pools[at]), capacity))
    decreases |pools|
  {
    if pools == [] { return 0; }
    var pool := mapped(pools[0]);
    var next := Tried(Cleaned(l, attempts[0].cleanUps), known(pool), pool, capacity, attempts[0]);
    if next.machine.Some? { return 0; }
    var later := FirstSuccessAnswers(next.ledger, pools[1..], mapped, known, capacity, attempts[1..]);
    at := later + 1;
    forall j | 0 <= j < at ensures !MustSucceed(attempts[j], known(mapped(pools[j]))) {
      if j > 0 { assert attempts[j] == attempts[1..][j - 1] && pools[j] == pools[1..][j - 1]; }
    }
  }

  /** The reserved instance answers when it is there, its pool is asked for, and the first attempt
      meets no failure. */
  lemma {:induction false} ReservedFirst(live: set<Id>, pools: seq<string>, mapped: string -> string,
                                         known: string -> bool, capacity: Capacity, attempts: seq<Attempt>)
    requires |attempts| == |pools| && capacity.instance.Some? && capacity.instance.value in live
    requires capacity.pool in pools && mapped(capacity.pool) == capacity.pool && known(capacity.pool)
    requires MustSucceed(attempts[0].(provisions := true), true)
    ensures Served(Ledger(live, [], {}, {}), pools, mapped, known, Some(capacity), attempts, true).machine
         == capacity.instance
  {
    FrontedShape(pools, capacity.pool);
    NothingToClean(Ledger(live, [], {}, {}), attempts[0].cleanUps);
  }

  lemma {:induction false} NothingToClean(l: Ledger, picks: seq<nat>)
    requires l.pending == []
    ensures Cleaned(l, picks) == l
    decreases |picks|
  {
    if picks != [] { NothingToClean(l, picks[1..]); }
  }

  /** An instance this request never hands out: neither the reserved one nor a spare. */
  predicate Bystander(id: Id, capacity: Option<Capacity>, attempts: seq<Attempt>) {
    && (capacity.Some? ==> capacity.value.instance != Some(id))
    && (forall k | 0 <= k < |attempts| :: attempts[k].spare != id)
  }

  lemma {:induction false} BystandersStay(l: Ledger, pools: seq<string>, mapped: string -> string,
                                          known: string -> bool, capacity: Option<Capacity>, attempts: seq<Attempt>,
                                          id: Id)
    requires |attempts| == |pools| && Bystander(id, capacity, attempts)
    requires id !in l.failed && id !in l.taken
    ensures
      var end := AllTried(l, pools, mapped, known, capacity, attempts);
      id !in end.ledger.failed && id !in end.ledger.taken
    decreases |pools|
  {
    if pools != [] {
      var m, pool := Cleaned(l, attempts[0].cleanUps), mapped(pools[0]);
      CleanedOnlyRemoves(l, attempts[0].cleanUps);
      var next := Tried(m, known(pool), pool, capacity, attempts[0]);
      if next.machine.None? {
        assert forall k | 0 <= k < |attempts[1..]| :: attempts[1..][k] == attempts[k + 1];
        BystandersStay(next.ledger, pools[1..], mapped, known, capacity, attempts[1..], id);
      }
    }
  }

  /** When the stage of a machine cannot be recorded the request fails, and when all its clean-ups have
      run it has left no instance and touched no bystander; the reserved instance went with the machine. */
  lemma {:induction false} UnrecordedLeavesNothing(live: set<Id>, pools: seq<string>, mapped: string -> string,
                                                   known: string -> bool, capacity: Option<Capacity>,
                                                   attempts: seq<Attempt>)
    requires |attempts| == |pools| && OwnSpares(capacity, attempts)
    ensures
      var with := Served(Ledger(live, [], {}, {}), pools, mapped, known, capacity, attempts, true);
      var without := Served(Ledger(live, [], {}, {}), pools, mapped, known, capacity, attempts, false);
      var left := Settled(without.ledger).live;
      && without.machine.None? && left <= live
      && (with.machine.None? ==> without == with)
      && (with.machine.Some? ==> with.machine.value !in left)
      && (with.machine.Some? && capacity.Some? && known(capacity.value.pool) && capacity.value.instance.Some? ==>
            capacity.value.instance.value !in left)
      && (forall id | id in live && Bystander(id, capacity, attempts) :: id in left)
  {
    var l := Ledger(live, [], {}, {});
    NothingIsLeftBehind(live, pools, mapped, known, capacity, attempts, false);
    var end := AllTried(l, Order(pools, capacity), mapped, known, capacity, attempts);
    MachineIsTaken(l, Order(pools, capacity), mapped, known, capacity, attempts);
    forall id | id in live && Bystander(id, capacity, attempts)
      ensures id !in Served(l, pools, mapped, known, capacity, attempts, false).ledger.failed
    {
      BystandersStay(l, Order(pools, capacity), mapped, known, capacity, attempts, id);
    }
  }

  // ---------- Whether the machine of a successful request survives ----------

  /** How many listed pools stand for this one. */
  function Hits(pools: seq<string>, mapped: string -> string, name: string): nat {
    if pools == [] then 0 else (if mapped(pools[0]) == name then 1 else 0) + Hits(pools[1..], mapped, name)
  }

  lemma {:induction false} HitsOfConcat(x: seq<string>, y: seq<string>, mapped: string -> string, name: string)
    ensures Hits(x + y, mapped, name) == Hits(x, mapped, name) + Hits(y, mapped, name)
    decreases |x|
  {
    if x == [] {
      assert x + y == y;
    } else {
      HitsOfConcat(x[1..], y, mapped, name);
      assert (x + y)[1..] == x[1..] + y;
    }
  }

  lemma {:induction false} HitsOfFronted(pools: seq<string>, mapped: string -> string, name: string)
    ensures Hits(Fronted(pools, name), mapped, name) == Hits(pools, mapped, name)
    decreases |pools|
  {
    if name in pools && pools[0] != name {
      HitsOfFronted(pools[1..], mapped, name);
      FrontedShape(pools[1..], name);
      var rest := Fronted(pools[1..], name);
      assert Fronted(pools, name)[1..] == [pools[0]] + rest[1..];
      HitsOfConcat([pools[0]], rest[1..], mapped, name);
      HitsOfConcat([pools[0]], [], mapped, name);
      assert Hits([pools[0]], mapped, name) == if mapped(pools[0]) == name then 1 else 0;
    }
  }

  /** The reserved instance is handed out at most once: its pool is tried at most once more, and no
      more once the instance was given up. */
  ghost predicate GivenOnce(l: Ledger, pools: seq<string>, mapped: string -> string, known: string -> bool,
                            capacity: Option<Capacity>) {
    capacity.Some? && Holds(l.live, capacity.value.pool, capacity) && known(capacity.value.pool) ==>
      Hits(pools, mapped, capacity.value.pool) <= if capacity.value.instance.value in l.failed then 0 else 1
  }

  lemma {:induction false} MachineIsNotGivenUp(l: Ledger, pools: seq<string>, mapped: string -> string,
                                               known: string -> bool, capacity: Option<Capacity>,
                                               attempts: seq<Attempt>)
    requires |attempts| == |pools| && SparesLeft(l, attempts) && OwnSpares(capacity, attempts)
    requires GivenOnce(l, pools, mapped, known, capacity)
    ensures
      var end := AllTried(l, pools, mapped, known, capacity, attempts);
      end.machine.Some? ==> end.machine.value !in end.ledger.failed
    decreases |pools|
  {
    if pools != [] {
      var m, pool := Cleaned(l, attempts[0].cleanUps), mapped(pools[0]);
      CleanedOnlyRemoves(l, attempts[0].cleanUps);
      var next := Tried(m, known(pool), pool, capacity, attempts[0]);
      if next.machine.None? {
        SparesStayLeft(m, known(pool), pool, capacity, attempts);
        MachineIsNotGivenUp(next.ledger, pools[1..], mapped, known, capacity, attempts[1..]);
      }
    }
  }

  lemma {:induction false} CleanedOnlyRemoves(l: Ledger, picks: seq<nat>)
    ensures
      var m := Cleaned(l, picks);
      m.taken == l.taken && m.failed == l.failed && m.live <= l.live
    decreases |picks|
  {
    if picks != [] { CleanedOnlyRemoves(Picked(l, picks[0]), picks[1..]); }
  }

  /** The machine a request answers with is there when all clean-ups have run. */
  predicate Survives(end: Outcome) {
    end.machine.Some? ==> end.machine.value in Settled(end.ledger).live
  }

  /** What a caller can check before the request: no reserved instance there, its pool unknown, or
      only one of the pools asked for stands for it. */
  predicate Unrepeated(live: set<Id>, pools: seq<string>, mapped: string -> string, known: string -> bool,
                       capacity: Option<Capacity>) {
    || capacity.None? || capacity.value.instance.None? || capacity.value.instance.value !in live
    || !known(capacity.value.pool) || Hits(pools, mapped, capacity.value.pool) <= 1
  }

  /** Whatever the attempts meet and whenever clean-ups run, the machine of a successful request
      survives, if and only if the pool of its live reserved instance is not asked for twice. */
  lemma {:induction false} MachineSurvivesIff(live: set<Id>, pools: seq<string>, mapped: string -> string,
                                              known: string -> bool, capacity: Option<Capacity>)
    ensures
      (forall attempts | |attempts| == |pools| && OwnSpares(capacity, attempts) ::
         Survives(Served(Ledger(live, [], {}, {}), pools, mapped, known, capacity, attempts, true)))
      <==> Unrepeated(live, pools, mapped, known, capacity)
  {
    var l := Ledger(live, [], {}, {});
    if Unrepeated(live, pools, mapped, known, capacity) {
      forall attempts | |attempts| == |pools| && OwnSpares(capacity, attempts)
        ensures Survives(Served(l, pools, mapped, known, capacity, attempts, true))
      {
        if capacity.Some? { HitsOfFronted(pools, mapped, capacity.value.pool); }
        NothingIsLeftBehind(live, pools, mapped, known, capacity, attempts, true);
        MachineIsNotGivenUp(l, Order(pools, capacity), mapped, known, capacity, attempts);
      }
    } else {
      var attempts := LosingAttempts(Order(pools, capacity), mapped, capacity.value.pool);
      RepeatedPoolLosesTheMachine(live, pools, mapped, known, capacity);
      assert !Survives(Served(l, pools, mapped, known, capacity, attempts, true));
    }
  }

  /** An attempt without a spare to fall back on and without clean-ups before it. */
  function Bare(healthy: bool): Attempt {
    Attempt([], false, "", false, true, true, healthy, true)
  }

  /** Only the first attempt in the reserved pool fails its health check. */
  function LosingAttempts(pools: seq<string>, mapped: string -> string, name: string): (attempts: seq<Attempt>)
    ensures |attempts| == |pools| && forall a | a in attempts :: !a.provisions
  {
    if pools == [] then []
    else if mapped(pools[0]) == name then [Bare(false)] + seq(|pools| - 1, _ => Bare(true))
    else [Bare(true)] + LosingAttempts(pools[1..], mapped, name)
  }

  /** Given up once and not cleaned up yet, the reserved instance is handed out again. */
  lemma {:induction false} HandedOutAgain(l: Ledger, pools: seq<string>, mapped: string -> string,
                                          known: string -> bool, capacity: Option<Capacity>, attempts: seq<Attempt>)
    requires capacity.Some? && Holds(l.live, capacity.value.pool, capacity) && known(capacity.value.pool)
    requires |attempts| == |pools| && (forall a | a in attempts :: a == Bare(true))
    requires Hits(pools, mapped, capacity.value.pool) >= 1
    ensures
      var end := AllTried(l, pools, mapped, known, capacity, attempts);
      end.machine == capacity.value.instance && end.ledger.pending == l.pending
    decreases |pools|
  {
    assert attempts[0] in attempts;
    if mapped(pools[0]) != capacity.value.pool {
      assert forall a | a in attempts[1..] :: a in attempts;
      HandedOutAgain(l, pools[1..], mapped, known, capacity, attempts[1..]);
    }
  }

  lemma {:induction false} LosingAttemptsLose(l: Ledger, pools: seq<string>, mapped: string -> string,
                                              known: string -> bool, capacity: Option<Capacity>)
    requires capacity.Some? && Holds(l.live, capacity.value.pool, capacity) && known(capacity.value.pool)
    requires Hits(pools, mapped, capacity.value.pool) >= 2
    ensures
      var end := AllTried(l, pools, mapped, known, capacity, LosingAttempts(pools, mapped, capacity.value.pool));
      end.machine == capacity.value.instance && end.machine.value in end.ledger.pending
    decreases |pools|
  {
    var name := capacity.value.pool;
    var attempts := LosingAttempts(pools, mapped, name);
    if mapped(pools[0]) == name {
      var next := Tried(l, true, name, capacity, attempts[0]).ledger;
      assert next.pending == l.pending + [capacity.value.instance.value];
      HandedOutAgain(next, pools[1..], mapped, known, capacity, attempts[1..]);
    } else {
      assert attempts[1..] == LosingAttempts(pools[1..], mapped, name);
      LosingAttemptsLose(l, pools[1..], mapped, known, capacity);
    }
  }

  /** The failing case: the first attempt in the reserved pool fails its health check, a later one is
      handed the same instance before the clean-up ran, and the request succeeds with it. */
  lemma {:induction false} RepeatedPoolLosesTheMachine(live: set<Id>, pools: seq<string>, mapped: string -> string,
                                                       known: string -> bool, capacity: Option<Capacity>)
    requires !Unrepeated(live, pools, mapped, known, capacity)
    ensures
      var attempts := LosingAttempts(Order(pools, capacity), mapped, capacity.value.pool);
      var end := Served(Ledger(live, [], {}, {}), pools, mapped, known, capacity, attempts, true);
      && OwnSpares(capacity, attempts)
      && end.machine == capacity.value.instance && end.machine.value !in Settled(end.ledger).live
  {
    HitsOfFronted(pools, mapped, capacity.value.pool);
    LosingAttemptsLose(Ledger(live, [], {}, {}), Order(pools, capacity), mapped, known, capacity);
  }

  /** The same on the running program: a request for these pools that succeeds, and its machine is
      gone once the clean-ups have run. */
  method LoseTheMachine(live: set<Id>, pool: string, fallbacks: seq<string>, mapped: string -> string,
                        known: string -> bool, capacity: Capacity, reserved: Id)
    returns (setup: Setup, attempts: seq<Attempt>, machine: Option<Id>)
    requires capacity.instance == Some(reserved) && reserved in live && known(capacity.pool)
    requires Hits([pool] + fallbacks, mapped, capacity.pool) >= 2
    ensures fresh(setup) && |attempts| == 1 + |fallbacks| && OwnSpares(Some(capacity), attempts)
    ensures
      var end := Served(Ledger(live, [], {}, {}), [pool] + fallbacks, mapped, known, Some(capacity), attempts, true);
      setup.Now() == Settled(end.ledger) && machine == end.machine == Some(reserved) && reserved !in setup.live
  {
    var order := Order([pool] + fallbacks, Some(capacity));
    attempts := LosingAttempts(order, mapped, capacity.pool);
    RepeatedPoolLosesTheMachine(live, [pool] + fallbacks, mapped, known, Some(capacity));
    assert Requested(pool, fallbacks, []) == [pool] + fallbacks;
    setup := new Setup(live);
    machine := setup.HandleSetup(pool, fallbacks, [], mapped, known, Some(capacity), attempts, true);
    setup.Settle();
  }
}
