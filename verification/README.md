# VM runner: lifecycle, tenants, pipelines and sizing, verified

This project models the parts of the VM pool runner whose correctness spans several functions,
goroutines or whole runs, and proves what they keep. `dafny verify dfyconfig.toml` checks all of it.

**Instances** (`InstanceProtocol`, `InstanceSafety`, `ForceDeletion`, `DistributedRunner`, `QuietRunner`,
`PurgerAges`). Several
runners share one instance table. Rows move through provisioning, created, hibernating, inuse and
terminating by atomic claims, by whole-row updates from background goroutines, and by purger
statements. `InstanceProtocol` is the step system: the table, the VMs that exist, a program counter
per goroutine, the row each request handler holds until it is done, and the clean-up jobs in flight. A run is any
interleaving of steps. `DistributedRunner.Cluster` writes the operations statement by statement;
each is shown to be a run of the protocol whatever the other runners do in its gaps, and its exact
effect is stated for the case that they do nothing.

**The single-runner pool** (`PoolLock`) does the same job with a mutex held in separate regions;
each region is one step.

**Capacity reservations** (`Reservations`, `ReservationSafety`, `ReservationSweeps`,
`ReservationLoss`, `ReservedMachines`, `ReservationDesk`, `ReservationEffects`) are records keyed by stage that only claims,
creation and deletion change, next to the reservations that exist in the cloud, the warm instances
kept for stages and the setups running on them.

**Tenants** (`SpecMerge`, `VariantMerge`, `Tenants`, `Routing`, `RoutingAnswers`): merging a tenant's spec and variants
over the pool's own, accepting a list of tenants, and routing accounts and instances to drivers.

**Pipelines** (`Pipeline`, `PipelineGraph`): the linter's ordering rule and the compiler's wiring.

**Sizing** (`Predictor`, `EmaLaws`, `PredictionLaws`, `PredictionFormula`, `LookbackLaws`, `PoolBuilding`,
`PoolSizes`), the job
**scheduler** (`Scheduler`) and the **setup fallback** over several pools (`SetupFallback`).
`Options` holds the one datatype they share.

Every lemma carries `{:induction false}`: where a proof is by induction, the induction is written out.

## What turned out not to hold

The model does what the code does. Where a promise made in a comment or suggested by a name fails,
the condition under which it holds is proved instead, with a run or input that breaks it.

- Exclusive hand-out needs drivers not to report new instances as created
  (`InstanceSafety.ExclusiveHandOut`, `InstanceSafety.DoubleHandOut`).
- Terminating is not final while a background write is outstanding or a request still holds an older
  copy of the row (`InstanceSafety.TerminatingAbsorbsExactly`). A purger can then destroy a VM in use and drop its
  row (`InstanceSafety.ResurrectedThenDestroyed`).
- In the single-runner pool, hibernation may start on a terminating row and free it for a second
  hand-out (`PoolLock.SecondHandOutIff`).
- Force-deletion is said to hit only rows that were retried for the whole age limit
  (app/drivers/distributed_manager.go:1183-1187). The statement looks at neither state nor labels,
  so this depends on the two limits and fails for kept rows (`PurgerAges.FreeRowsAreRetriedIff`,
  `PurgerAges.KeptRowsAreDroppedUnseen`, `PurgerAges.TtlRowsAreOfferedIff`).
- The comment on stuck terminating rows (app/drivers/distributed_manager.go:947) says five minutes, the
  constant (app/drivers/distributed_manager.go:30) is two; the model follows the constant.
- Force-deletion spares instances younger than twice the age limit if and only if no clean-up request
  describes the instance itself (`ForceDeletion.ForcedLateIff`): such a request writes back a row
  without a start time (`ForceDeletion.DescribedIsForcedEarly`).
- Retrying a destroy that looks its instance up by stage cannot succeed once an attempt has marked
  the row, because the look-up lists in-use rows only (`DistributedRunner.Cluster.HandleDestroy`).
- Destroying a reservation works by stage and through the pool's default driver, so racing requests
  for one stage and tenants with their own driver can lose a recorded reservation
  (`ReservationLoss.NothingIsLostIff`, `ReservationLoss.RivalRequestsLose`,
  `ReservationLoss.TenantReservationIsLost`).
- A record is as old as its reservation: the driver stamps the reservation
  (app/drivers/amazon/driver.go:382, app/drivers/google/driver.go:440) and storing the record keeps
  that time (store/database/sql/capacity_reservation.go:32-34). A request slower than the age limit
  therefore stores a record already old enough for a sweep that is under way, which can list the
  stage a second time (`ReservationSweeps.ListedOnceIff`, `ReservationSweeps.SlowRequestIsListedTwice`).
- A stage that already has a reservation record can get a second reservation that nobody records or
  releases (`ReservationDesk.Desk.RecordReservation`).
- Sweeps are said to avoid racing with setups in flight by looking only at records past the cutoff
  (app/drivers/distributed_manager.go:1071-1074). That is so if and only if setups tag their instance
  before its reservation is that old, look-ups of the instance do not fail, and no stage is requested
  twice (`ReservedMachines.SetupsAreSparedIff`).
- The clean-up statements of the instance purger return no stage column, so the reservation clean-up
  that follows them (app/drivers/distributed_manager.go:1359-1378) has nothing to do; it is not a step.
- Deep merging is not associative in general (`SpecMerge.AssociativeIff`), and merging variants again
  can change them when the base was empty (`VariantMerge.MergedAgainIff`).
- An account literally called "default" may be routed one way by its tenant and another by its id
  (`Routing.Pool.RoutesAgree`, `Routing.LiteralDefaultIsTorn`).
- Unregistering a job before the scheduler starts does nothing (`Scheduler.RemovedJobStaysIff`).
- A setup request that asks for the pool of its live reserved instance twice can succeed with a
  machine that its own pending clean-up destroys, and only such a request can
  (`SetupFallback.MachineSurvivesIff`, `SetupFallback.LoseTheMachine`).
- A VM whose row cannot be stored stays without a row when the compensating destroy fails too
  (`DistributedRunner.Cluster.SetupInstance`).
- Every multi-tenant build creates all variant instances again (`PoolBuilding.SecondBuild`).

## Model

| member | source | states |
|---|---|---|
| `InstanceProtocol.ValidConcat` | store/store.go:9-20 | Runs compose, so whatever single steps keep, every interleaving of store statements and driver answers keeps |
| `InstanceSafety.ExclusiveHandOut` | app/drivers/distributed_manager.go:385-412 | Over every interleaving of provisioning, background connect and hibernate writes, clean-ups and purges, each instance id is claimed from the hot pool at most once; this holds if and only if drivers do not stamp new instances "created" |
| `InstanceSafety.NoSecondClaim` | app/drivers/distributed_manager.go:397-407 | From any safe state no run claims an instance that was already given out, and no run claims one twice |
| `InstanceSafety.DoubleHandOut` | app/drivers/distributed_manager.go:692-700 | The five-step run that gives one instance out twice when a driver stamps it "created" before the connect write |
| `InstanceSafety.HandedStaysHanded` | app/drivers/distributed_manager.go:784-799 | After every run a given-out instance is not claimable and no background "created" write is outstanding for it; a claimable row's hibernated flag is the truth about its VM |
| `InstanceSafety.DestroyBeforeForget` | app/drivers/distributed_manager.go:171-209 | After every run a VM that ever got a row and still exists has its row, unless the age limit removed the row |
| `InstanceSafety.TerminatingAbsorbs` | app/drivers/instance_ops.go:134-148 | From a settled terminating row, which no goroutine or request is about to write anything else to, no run ever claims the instance or moves the row out of terminating |
| `InstanceSafety.TerminatingAbsorbsExactly` | app/drivers/distributed_manager.go:692-700 | Some run resurrects a terminating row if and only if a background write is outstanding or a request still holds an older copy |
| `InstanceSafety.SettlesWhenAllEnd` | command/harness/destroy.go:104-262 | Every terminating row can settle: its goroutine and the requests that hold it end without writing again |
| `InstanceSafety.GivenOutSettles` | command/harness/destroy.go:165-191 | From the empty table, an instance that was given out is marked by its holder and settles while its VM still exists |
| `InstanceSafety.Lifecycle` | app/drivers/distributed_manager.go:645-813 | From every well-formed state a fresh instance can be created, connected, hibernated, given out and destroyed, after which the table, the cloud and the copies in memory are as before |
| `InstanceSafety.ResurrectedThenDestroyed` | app/drivers/distributed_manager.go:1189-1281 | The run step by step: a purger claims a row stuck in provisioning, the late connect write frees it, a request is given the live instance, the purger's own destroy removes the VM under it, and the in-use row is dropped |
| `InstanceSafety.SafeRun` | store/store.go:9-20 | Well-formedness, coverage, exclusivity and truthful flags hold after every run |
| `ForceDeletion.ForcedLateIff` | app/drivers/distributed_manager.go:1288-1347 | Over every run of any number of runners, the age limit drops the row of an instance created from now on only when it is older than twice the limit, if and only if no clean-up request describes it |
| `ForceDeletion.DescribedIsForcedEarly` | command/harness/destroy.go:165-191 | The five steps, for every age limit, that drop the row of an instance no older than twice the limit while its VM exists |
| `ForceDeletion.RequestTerminateVoidsRetries` | command/harness/destroy.go:165-191 | From any safe state a clean-up request that describes its instance writes back a row without start time, which the next sweep may drop while the VM exists |
| `ForceDeletion.HandOutStartsAnew` | app/drivers/distributed_manager.go:397-407 | A hand-out of an instance that was warm for any time starts its age anew: the row is in use, its flag is the truth about the VM, the request holds it, and no run without a describing clean-up drops it before twice the age limit from then |
| `DistributedRunner.Cluster.AskDriver` | app/drivers/distributed_manager.go:757-782 | The hibernate loop asks the driver up to three times and leaves the outcome row of the first success, or the plain row |
| `DistributedRunner.Cluster.Hibernate` | app/drivers/distributed_manager.go:730-813 | Skips rows that are not claimable; otherwise the row ends created again, marked hibernated exactly when some attempt succeeded |
| `DistributedRunner.Cluster.SetupInstance` | app/drivers/provisioner.go:299-345 | Create, then store; a row that cannot be stored leaves no row, and leaves the VM exactly when the compensating destroy fails too |
| `DistributedRunner.Cluster.ConnectAndHibernate` | app/drivers/distributed_manager.go:664-724 | The goroutine ends with the instance created, hibernated if asked and possible, or destroyed when it never answered |
| `DistributedRunner.Cluster.SetupInstanceWithHibernate` | app/drivers/distributed_manager.go:645-727 | Seeding one warm instance: exact resulting row and VM for every outcome |
| `DistributedRunner.Cluster.ClaimOneHot` | app/drivers/distributed_manager.go:397-407 | Claims a created row of the given set for a request, or there was none; the claimed id was never given out before, and the request holds its row |
| `DistributedRunner.Cluster.ClaimHot` | app/drivers/distributed_manager.go:385-455 | Variants are served in priority order: a claim from one variant means every earlier one had nothing created |
| `DistributedRunner.Cluster.ProvisionFromPool` | app/drivers/distributed_manager.go:315-488 | A hot instance never handed before, of the first variant that has one, taken over as in use; or, only when no variant had any, a new one owned by the request if its row can be stored; either way the request holds the row |
| `DistributedRunner.Cluster.ClaimAll` | app/drivers/distributed_manager.go:133-151 | The claim loop terminates with nothing matching left, each row claimed once and marked terminating, nothing else changed |
| `DistributedRunner.Cluster.CleanPool` | app/drivers/distributed_manager.go:118-209 | With neither kind requested it refuses. Otherwise, row by row: rows in use keep row and VM unless busy ones were asked for, created, hibernating and provisioning ones unless free ones were; every matching row of a kind asked for ends, losing VM and row unless the driver reported it failed; rows that do not match are untouched |
| `DistributedRunner.Cluster.ForceDeleteLeaked` | app/drivers/distributed_manager.go:1288-1347 | Drops exactly the pool's rows started more than twice the age limit ago, whatever their state |
| `DistributedRunner.Cluster.ExecuteInstanceCleanup` | app/drivers/distributed_manager.go:1172-1281 | One purger pass: rows started more than twice the limit ago dropped unseen, every eligible row that is left claimed, destroyed and forgotten unless failed, all others untouched |
| `DistributedRunner.Cluster.TryDestroy` | command/harness/destroy.go:104-262 | One destroy attempt: what it marks, destroys and forgets, for requests that describe their instance and for those that look it up |
| `DistributedRunner.Cluster.HandleDestroy` | command/harness/destroy.go:41-102 | Retrying ends in success exactly when some attempt destroys; but a request that looks its instance up succeeds exactly when no earlier attempt had managed to mark the row, since the look-up lists in-use rows only |
| `DistributedRunner.CleanedAsAsked` | app/drivers/distributed_manager.go:118-209 | The sets of states a clean-up claims come, row by row, to what was asked: busy means in use, free means created, hibernating or provisioning, terminating rows are nobody's |
| `DistributedRunner.PassAsAsked` | app/drivers/distributed_manager.go:1172-1281 | The same for a purger pass, with the rows past twice the limit dropped whatever their state |
| `QuietRunner.SeedAlone` | app/drivers/distributed_manager.go:645-727 | With the other runners idle: the VM of a new warm instance stays without a row exactly when neither storing nor destroying works, and with its row when it connects or cannot be destroyed; the row is created, and flagged hibernated exactly when that was wanted and one of three attempts worked |
| `QuietRunner.ProvisionAlone` | app/drivers/distributed_manager.go:315-488 | With the other runners idle: a hot instance is given exactly when some variant has a created row; it is one of the first such variant, in use and as old as the hand-out; every other row is untouched |
| `QuietRunner.DestroyAlone` | command/harness/destroy.go:41-102 | With the other runners idle: a request that describes its instance succeeds exactly when some attempt gets the driver to destroy it; one that looks it up needs a given-out row in use and no marking attempt before; the VM goes exactly then |
| `PurgerAges.BusyPassDropsAll` | app/drivers/distributed_manager.go:1288-1310 | The busy pass drops every row the free pass would drop |
| `PurgerAges.PlainBusyRowsAreRetried` | app/drivers/distributed_manager.go:912-957 | A plain busy row that is dropped was offered to the driver throughout the whole age limit before |
| `PurgerAges.FreeRowsAreRetriedIff` | app/drivers/distributed_manager.go:959-1001 | Free rows keep that promise if and only if both limits are equal, and are offered at all before being dropped if and only if the free limit is at most twice the busy one |
| `PurgerAges.KeptRowsAreDroppedUnseen` | app/drivers/distributed_manager.go:922-934 | Rows labelled to be kept are never offered while created, hibernating or in use, yet are dropped |
| `PurgerAges.TtlRowsAreOfferedIff` | app/drivers/distributed_manager.go:936-950 | Rows with a ttl are offered before being dropped if and only if seven days are at most twice the busy limit |
| `PurgerAges.FailedDestroyIsRetried` | app/drivers/distributed_manager.go:952-957 | Over every run after a driver reported an instance failed: while its VM exists and the age limit spared its row, the row is there; it is terminating if it had settled; and once nothing wrote to it for 120 seconds the next busy pass claims it |
| `PurgerAges.ClaimRestsTwoMinutes` | app/drivers/distributed_manager.go:936-957 | And not sooner: for two minutes after a claim that nobody overwrites no other sweep takes the instance on, unless it is past the busy limit or seven days anyway |
| `PurgerAges.LeakedIsDropped` | app/drivers/distributed_manager.go:1288-1347 | What the two passes of a sweep drop is together exactly what the age limits drop |
| `PurgerAges.YoungRowsAreLeftAlone` | app/drivers/distributed_manager.go:912-957 | With any accepted limits a sweep neither offers nor drops a row younger than five minutes that is not terminating |
| `PurgerAges.StuckProvisioningIsOffered` | app/drivers/distributed_manager.go:959-1001 | A row still in provisioning is offered exactly when it is more than half an hour old |
| `PurgerAges.GivenOutCanFail` | app/drivers/distributed_manager.go:1189-1281 | From the empty table, a given-out instance whose row settled is claimed by a purger whose driver call may fail |
| `PoolLock.GivenOutAtMostOnce` | app/drivers/provisioner.go:128-179 | With each locked region one step, every run in which hibernation never starts on a terminating row gives an instance out at most once, and no hibernation or connect write lands on a row in use |
| `PoolLock.SecondHandOutIff` | app/drivers/hibernator.go:164-181 | For a given-out instance whose goroutine is about to hibernate it, a second hand-out becomes possible if and only if the row is terminating, because the region only steps back from rows in use |
| `PoolLock.SecondHandOutReachable` | app/drivers/hibernator.go:164-205 | That situation is reachable by an ordinary run |
| `PoolLock.LockedPool.ProvisionFromPool` | app/drivers/provisioner.go:128-179 | A free instance exists exactly when one is handed out; none of the free ones started earlier; it ends in use, with its start unchanged, or moved to now when it was hibernated; otherwise one is created if allowed |
| `PoolLock.HandOutAge` | app/drivers/provisioner.go:158-179 | A hand-out leaves the age of an instance that was awake alone, and over every run after it an instance that was hibernated is not older than the time since its hand-out |
| `PoolLock.LiveIsRecorded` | app/drivers/purger.go:154-191 | After every run a VM that got a row and still exists has its row: rows go only after a driver answered, and never those it reported failed |
| `PoolLock.LockedPool.Hibernate` | app/drivers/hibernator.go:164-222 | One try: rows in use or gone are left alone, other rows end created with the flag the driver's answer gives; another try follows exactly when the driver was asked, failed, the error can be retried and tries are left |
| `PoolLock.LockedPool.HibernateWithRetries` | app/drivers/hibernator.go:101-162 | One to three tries begin; each but the last failed retryably; fewer than three means that the last succeeded, failed for good or stepped back from a row gone or in use |
| `PoolLock.LockedPool.DestroyStale` | app/drivers/purger.go:154-191 | Destroys and removes exactly the selected instances the driver did not report failed |
| `ReservationSafety.StatesOnlyAdvance` | store/store.go:41-52 | Between two creations a record only moves created, in use, terminating, gone; a setup consumes it at most once and only while created |
| `ReservationSweeps.ListedOnceIff` | app/drivers/distributed_manager.go:1009-1077 | Over all runs with any number of runners whose requests store their record within a given delay of the driver's stamp, and whose sweeps spare records younger than a given age, no sweep lists a stage twice, if and only if the delay is at most the age |
| `ReservationSweeps.SlowRequestIsListedTwice` | app/drivers/distributed_manager.go:1043-1070 | The run, from an empty table, in which a slow request stores a record that is already old and a sweep lists its stage twice |
| `ReservationSweeps.SweepsSoundRun` | app/drivers/distributed_manager.go:1018-1077 | What a sweep has listed is terminating, gone or too young for it, is listed once and will not be looked at again, after every run of quick requests |
| `ReservationLoss.NothingIsLostIff` | app/drivers/instance_ops.go:155-207 | However requests, setups, destroys and sweeps interleave, no recorded reservation is lost, if and only if the requests come to reservations made by the releasing driver and no two requests for one stage come to different ones |
| `ReservationSafety.FailedReleaseIsReselected` | app/drivers/distributed_manager.go:1018-1041 | Once claimed for termination a record stays terminating until deleted, and every sweep past the cutoff whose query succeeds lists it |
| `ReservationLoss.RivalRequestsLose` | command/harness/capacity.go:147-162 | Two requests racing for one stage, with different reservations or one without any: the loser's compensation works by stage and removes the winner's record without releasing its reservation |
| `ReservationLoss.TenantReservationIsLost` | app/drivers/instance_ops.go:189-195 | A reservation made by a tenant's own driver is released through the pool's default driver, which reports it gone, and its record is deleted while it exists |
| `ReservedMachines.SetupsAreSparedIff` | app/drivers/distributed_manager.go:1070-1075 | However requests, setups, destroys and sweeps interleave, no sweep takes in the machine of a stage that is set up or running on it and that nobody asked to destroy, if and only if setups tag their machine before its reservation is old enough to be swept, instance look-ups succeed and no stage is requested twice |
| `ReservedMachines.TakenAsOrphan` | app/drivers/distributed_manager.go:1132-1156 | The run in which a slow setup, or a failed look-up, makes a sweep take in the machine of a stage in use |
| `ReservedMachines.TakenAsStuck` | command/harness/capacity.go:147-162 | The run in which a second request's compensation marks the record of a running stage and a sweep takes its machine in as stuck |
| `ReservationDesk.Desk.DestroyCapacity` | app/drivers/instance_ops.go:155-209 | Claim, destroy the instance, release, delete: exact records, cloud and warm instances after every outcome of the three |
| `ReservationDesk.Desk.RecordReservation` | command/harness/capacity.go:147-170 | The record is stored, as old as its reservation, exactly when the stage had none and the store accepts it; a stage that has a record keeps it, and the new reservation and instance stay unrecorded; a refused record is compensated by destroying both |
| `ReservationDesk.Desk.FindOrphans` | app/drivers/distributed_manager.go:1110-1165 | Claims exactly the listed in-use records for whose stage no instance is found, a failed look-up finding none |
| `ReservationDesk.Desk.CollectStale` | app/drivers/distributed_manager.go:1009-1077 | Whichever of its three queries succeed, a sweep takes in exactly the stuck terminating, unused and orphaned records past the cutoff; no stage twice as long as records are stored before they are old enough to be swept, and no machine in use under the conditions of SetupsAreSparedIff |
| `ReservationDesk.Desk.CleanupCapacities` | app/drivers/distributed_manager.go:1009-1102 | A whole sweep: exactly the collected records deleted unless the driver refuses, exactly their reservations released and their instances destroyed |
| `ReservationEffects.DestroyAlone` | app/drivers/instance_ops.go:155-209 | With nobody else acting: the record goes exactly when there is nothing to release or the release succeeds, and is terminating otherwise if it could be marked; the reservation leaves the cloud exactly when the driver answers and made it; the instance goes exactly when it could be destroyed; nothing else changes |
| `ReservationEffects.RecordAlone` | command/harness/capacity.go:147-170 | With nobody else acting: the new reservation and its instance stay when they are recorded or a record was there already, and are otherwise given back as far as the driver answers and made them; other records, reservations and instances are untouched |
| `ReservationEffects.SweepAlone` | app/drivers/distributed_manager.go:1009-1102 | With nobody else acting: records within the age limit, locked ones and those in use with a tagged instance are untouched; every overdue record goes, except that one whose release fails stays, terminating; exactly their reservations and instances go |
| `SpecMerge.DeepMerge` | command/config/tenant_merge.go:172-189 | The key loops compute the overlay of the two trees |
| `SpecMerge.PathByPath` | command/config/tenant_merge.go:172-189 | Along every path the result shows the override where it says something, nothing below the override's leaves, and the base elsewhere |
| `SpecMerge.SameSights` | command/config/tenant_merge.go:172-189 | A tree is determined by what it shows along its paths, so the path-by-path description is complete |
| `SpecMerge.EmptyIsIdentity` | command/config/tenant_merge.go:172-189 | The empty object is an identity on both sides |
| `SpecMerge.MergedAgain` | command/config/tenant_merge.go:172-189 | Merging the same override again changes nothing |
| `SpecMerge.AssociativeIff` | command/config/tenant_merge.go:172-189 | Two merges can be regrouped if and only if nothing of the base is hidden by a leaf of the first override that an object of the second replaces |
| `SpecMerge.AssociativeOnSameKinds` | command/config/tenant_merge.go:172-189 | In particular when no place is a leaf in the first override and an object in the second |
| `SpecMerge.GroupingMatters` | command/config/tenant_merge.go:172-189 | A concrete triple for which grouping matters |
| `VariantMerge.MergeVariants` | command/config/tenant_merge.go:208-243 | The loops over both lists compute the merged list; for all lists the pool's variants stay in order, each as it was or replaced by the override's last word, and an override over an empty base is taken as it is |
| `VariantMerge.MergedIsMergeIff` | command/config/tenant_merge.go:208-243 | Base ids in order and replaced in place by the override's last word, then each new id once in the order the override first names it: so for every non-empty base, and for an empty one if and only if the override repeats no id |
| `VariantMerge.PoolVariantsStay` | command/config/tenant_merge.go:208-235 | For all lists, whatever is empty, every variant of the pool stays in its place, and without an override the list is the pool's own |
| `VariantMerge.PromiseIsUnique` | command/config/tenant_merge.go:199-207 | Only one list meets that description |
| `VariantMerge.DistinctIdsKept` | command/config/tenant_merge.go:208-243 | Distinct ids in the base give distinct ids in the result; with an empty base, distinct ids in the override do |
| `VariantMerge.MergedAgainIff` | command/config/tenant_merge.go:208-214 | Merging the same override once more changes nothing if and only if there was a base or the override has no overruled entry |
| `Tenants.ResolveTenants` | command/config/tenant_merge.go:40-124 | Succeeds exactly when the base spec is present, every entry is sound on its own and no two entries conflict; then the tenants and the account map are the ones described; a rejection names a real violation |
| `Tenants.MergeSpec` | command/config/tenant_merge.go:130-158 | The decoded overlay of the two object trees, failing when either is no object or the result does not fit |
| `Tenants.FindShadowingGroup` | command/config/tenant_merge.go:108-121 | The last pass finds nothing exactly when no explicit group id is another entry's account |
| `Tenants.AddAccounts` | command/config/tenant_merge.go:100-109 | Routes every non-empty account of an entry, or names one that is routed elsewhere |
| `Tenants.OrderIsIrrelevant` | command/config/tenant_merge.go:59-121 | Listing the tenants in another order changes neither acceptance nor any route |
| `Tenants.OwnSettingsWin` | command/config/tenant_merge.go:52-124 | Setting by setting, a tenant gets its own name, pool size, limit and variants where it has them and the pool's otherwise; along every path its word counts in its spec, and the pool's where it says nothing; the default tenant is the pool |
| `Routing.Pool.ApplyTenants` | app/poolfile/config.go:427-455 | Succeeds exactly when the tenants resolve and every driver can be built, and then the pool serves exactly those tenants |
| `Routing.Pool.SetDefaultTenantDriver` | app/poolfile/config.go:459-469 | The pool's own driver and spec become the default tenant's |
| `Routing.Pool.RoutesAgree` | app/drivers/pool.go:94-109 | A routed account and its tenant lead to the same driver, built from the tenant's merged spec, if and only if the account is not literally "default" or both specs build the same driver |
| `Routing.LiteralDefaultIsTorn` | app/drivers/pool.go:94-109 | The exceptional case exists: an accepted instance that lists "default" under a group id, whose account is served by the base driver when looked up and by its tenant's when resolved |
| `Routing.Pool.OthersUseDefault` | app/drivers/pool.go:54-61 | Every other account is served by the default tenant |
| `Routing.Pool.VariantsForTenant` | app/drivers/pool.go:114-132 | First tenant entry with the id, then the default entry, then the pool's own list |
| `Routing.Pool.VariantsAgree` | app/drivers/pool.go:114-132 | A routed account is served the pool's variants with its tenant's overrides merged in |
| `Routing.Pool.PoolVariantsServed` | app/drivers/pool.go:114-132 | A routed account is served every variant of the pool in its place, as it is or in its tenant's last word; one whose tenant overrides none is served exactly the pool's list |
| `Routing.Pool.DestroyByTenant` | app/drivers/pool.go:66-88 | One call per tenant in the batch, on that tenant's driver, with its rows in order; a row goes with the call for the tenant it names, one that names none with the default tenant's; failures concatenated, first error kept; single-tenant pools make one call |
| `Routing.Pool.SpreadIsPartition` | app/drivers/pool.go:70-86 | Those calls destroy each instance of the batch exactly once, each by its own tenant's driver |
| `Routing.Pool.DestroyedAtHome` | app/drivers/pool.go:66-109 | In a pool that serves its tenants, an instance is destroyed by the driver built from the merged spec of the tenant its row names, one that names none by the pool's own |
| `Routing.ShareInOrder` | app/drivers/pool.go:70-77 | A tenant's share of a batch keeps the order of the batch and leaves out nothing that is the tenant's |
| `RoutingAnswers.FirstErrorIsFirst` | app/drivers/pool.go:78-87 | No error is reported exactly when no call had one; otherwise that of the first call that did |
| `RoutingAnswers.FailuresInOrder` | app/drivers/pool.go:78-87 | Every call's failures are reported, in the order of the calls |
| `Pipeline.CheckSteps` | engine/linter/linter.go:89-116 | Reports nothing exactly when every step is present, allowed, newly named and depends only on the clone step and earlier steps |
| `Pipeline.CheckDeps` | engine/linter/linter.go:144-155 | Reports nothing exactly when every dependency is known and none is the step itself |
| `Pipeline.Compile` | engine/compiler/compiler.go:155-193 | Builds the clone step and the user steps and wires them; exact resulting graph |
| `Pipeline.IsGraph` | engine/compiler/util.go:43-50 | True exactly when some step has a dependency |
| `Pipeline.ConfigureSerial` | engine/compiler/util.go:54-62 | Each step but the first ends depending on exactly its predecessor |
| `Pipeline.ConfigureCloneDeps` | engine/compiler/util.go:102-111 | Exactly the dependency-free steps other than the clone step get it as dependency |
| `Pipeline.RemoveCloneDeps` | engine/compiler/util.go:115-127 | Without a clone step, exactly the steps that depend on it alone lose that dependency |
| `PipelineGraph.LintedIff` | engine/linter/linter.go:89-155 | Linting accepts exactly the pipelines whose graph, clone step first, has unique names and strictly backward dependencies |
| `PipelineGraph.LintThenCompile` | engine/compiler/compiler.go:461-468 | Every linted pipeline compiles to a graph in which each step comes after what it waits for and no chain returns to its start |
| `PipelineGraph.EverythingReachesClone` | engine/compiler/compiler.go:461-468 | With the clone step enabled every step waits for it |
| `PipelineGraph.SameChains` | engine/compiler/util.go:102-127 | In a declared graph the chains ending in a user step are exactly the declared ones |
| `PipelineGraph.SameReachability` | engine/compiler/util.go:102-127 | So reachability among user steps is exactly what was declared |
| `PipelineGraph.UndeclaredIsOneChain` | engine/compiler/util.go:54-62 | When nothing is declared, a step waits for exactly itself and the steps before it |
| `PipelineGraph.NothingToRemove` | engine/compiler/util.go:115-127 | On a linted pipeline without clone step the removal changes nothing |
| `Predictor.LookbackRanges` | app/predictor/ema_weekend_decay_predictor.go:128-144 | The windows of the nearest weekdays within the allowed days, at most as many as wanted |
| `Predictor.CalculateEMA` | app/predictor/ema_weekend_decay_predictor.go:122-192 | Fails exactly when the batch query it makes fails; otherwise the moving average of the fetched records oldest first, zero without records |
| `Predictor.MovingAverage` | app/predictor/ema_weekend_decay_predictor.go:180-191 | The loop computes the recursive moving average |
| `Predictor.CalculateHistoricalWithDecay` | app/predictor/ema_weekend_decay_predictor.go:203-247 | The weighted mean of the peaks of the weeks that have records, zero when they have no weight |
| `Predictor.PeakIsMaximum` | app/predictor/ema_weekend_decay_predictor.go:251-264 | The peak is the largest sample, or zero when none is larger |
| `Predictor.Predict` | app/predictor/ema_weekend_decay_predictor.go:81-117 | Fails exactly when a query it makes fails; weekends use history alone, weekdays the weighted combination; rounded up and floored |
| `PredictionFormula.WeekdayPrediction` | app/predictor/ema_weekend_decay_predictor.go:266-274 | A weekday prediction is w times a moving average of the recent samples plus 1 - w times the history, rounded up and not below the minimum; with weight one the history does not count, with weight zero the samples do not |
| `PredictionFormula.WeekendPrediction` | app/predictor/ema_weekend_decay_predictor.go:81-117 | A weekend prediction is the history, rounded up and not below the minimum, whatever the recent samples |
| `PredictionFormula.BaseFollowsAverage` | app/predictor/ema_weekend_decay_predictor.go:266-274 | With the same history, the value rounded from moves with the moving average by exactly its weight |
| `PredictionFormula.HistoryOfThreeWeeks` | app/predictor/ema_weekend_decay_predictor.go:203-247 | The history is the mean of three weekly peaks by their weights, weeks without records left out of both sums |
| `PredictionFormula.WeeksBack` | app/predictor/ema_weekend_decay_predictor.go:204-214 | The weeks looked at are the same window, on the same weekday and time of day, one, two and three weeks before |
| `PredictionFormula.WeekendIff` | app/predictor/ema_weekend_decay_predictor.go:194-199 | Weekends fall where the calendar has them, counted from Monday 1 January 2024 |
| `PredictionFormula.PeriodIsTwiceTheAge` | app/predictor/ema_weekend_decay_predictor.go:173-178 | The smoothing factor gives the samples an average age of half the period less half a sample |
| `EmaLaws.EmaInHull` | app/predictor/ema_weekend_decay_predictor.go:180-191 | The moving average stays between the bounds of its samples |
| `EmaLaws.EmaIsGeometric` | app/predictor/ema_weekend_decay_predictor.go:173-191 | It is the geometrically weighted sum of the samples, with weights summing to one |
| `EmaLaws.EmaIsMonotone` | app/predictor/ema_weekend_decay_predictor.go:180-191 | Raising samples never lowers it |
| `PredictionLaws.PredictionInBounds` | app/predictor/ema_weekend_decay_predictor.go:81-117 | A prediction lies between the configured minimum and the larger of that minimum, zero and the largest sample looked at |
| `PredictionLaws.PredictionIsMonotone` | app/predictor/ema_weekend_decay_predictor.go:81-117 | Raising samples at the same distinct instants never lowers the prediction |
| `PredictionLaws.SortedBelow` | app/predictor/ema_weekend_decay_predictor.go:168-171 | Sorting two aligned series by distinct times keeps the lower one below |
| `LookbackLaws.LookbackIsWeekdays` | app/predictor/ema_weekend_decay_predictor.go:128-144 | No window falls on a weekend and there are never more than wanted |
| `LookbackLaws.LookbackIsNearest` | app/predictor/ema_weekend_decay_predictor.go:128-144 | No weekday nearer than one looked at is skipped |
| `LookbackLaws.LookbackIsFullIff` | app/predictor/ema_weekend_decay_predictor.go:128-144 | From every start exactly the wanted number of windows is found, if and only if the allowed days are at least that number plus two for every started five |
| `PoolBuilding.MinMaxSettles` | app/drivers/strategy.go:29-56 | Removals come out of the free instances, the total ends between the normalised bounds or at the busy count, and asking again asks for nothing |
| `PoolBuilding.MinMaxIsLeast` | app/drivers/strategy.go:29-56 | No other change ending there touches fewer instances |
| `PoolBuilding.GreedySettles` | app/drivers/strategy.go:12-19 | Never removes, tops free instances up to the minimum, and asking again asks for nothing |
| `PoolBuilding.BuildPoolMultiTenant` | app/drivers/pool_builder.go:132-247 | The counting maps and creation loops perform, tenant by tenant, exactly the actions decided for each |
| `PoolBuilding.OwnActionsOnly` | app/drivers/pool_builder.go:157-217 | What a build does for a tenant is decided by that tenant's sizes, variants and own default-variant rows |
| `PoolBuilding.TenantsDoNotInterfere` | app/drivers/pool_builder.go:157-244 | Two pools that agree on one tenant's settings and rows treat it alike, whatever the other tenants are |
| `PoolBuilding.SecondBuild` | app/drivers/pool_builder.go:219-244 | A second build leaves a settled base pool alone and creates all variant instances again |
| `PoolSizes.OwnIsFilter` | app/drivers/pool_builder.go:141-156 | A tenant's own rows are, in listing order, those of the default variant or of none that name the tenant, or name nobody when it is the default tenant |
| `PoolSizes.SizeAfterBuild` | app/drivers/pool_builder.go:157-244 | As each tenant sees one build of the whole pool: the rows destroyed are the first free ones of its own, its base pool ends between its bounds unless its busy rows alone exceed them, nothing is both created and removed, and every variant gets its warm instances |
| `PoolSizes.FreeAfterGreedyBuild` | app/drivers/strategy.go:12-19 | With the greedy strategy a build removes nothing and leaves each tenant at least its minimum free, creating no more than that takes |
| `Scheduler.Scheduler.Register` | app/scheduler/scheduler.go:49-71 | Replaces the job, cancels exactly the contexts of its name, starts one new context if started |
| `Scheduler.Scheduler.Start` | app/scheduler/scheduler.go:74-89 | Every registered job gets its context; a second start changes nothing |
| `Scheduler.Scheduler.Unregister` | app/scheduler/scheduler.go:92-102 | After Start removes the job and cancels its context; before Start does nothing |
| `Scheduler.Scheduler.Replay` | app/scheduler/scheduler.go:49-158 | After any sequence of calls a job runs, in exactly one live context, precisely when it is registered, Start was called and Stop was not |
| `Scheduler.RemovedJobStaysIff` | app/scheduler/scheduler.go:92-102 | A removed job stays registered if and only if it was removed before Start and not mentioned afterwards; no wanted job is ever missing |
| `SetupFallback.MoveToFront` | command/harness/setup.go:207-217 | The loop moves the first occurrence of the reserved pool to the front |
| `SetupFallback.FrontedKeepsOrder` | command/harness/setup.go:207-217 | Behind the front the pools keep their order |
| `SetupFallback.FrontedShape` | command/harness/setup.go:207-217 | The order tried is a permutation of the request |
| `SetupFallback.Setup.TryPool` | command/harness/setup.go:477-652 | One attempt: a machine only from a known pool and when every phase passes; the reserved instance when this is its pool and it exists, a spare otherwise; a clean-up pending exactly when it provisioned and failed |
| `SetupFallback.Setup.TryPools` | command/harness/setup.go:219-262 | The loop computes the function that tries the pools in order, with any clean-ups in between, until an attempt succeeds; FirstSuccessAnswers and MachineSurvivesIff say what that gives |
| `SetupFallback.Setup.HandleSetup` | command/harness/setup.go:143-283 | The whole request is the function TryPools computes over the pool asked for and its fallbacks, the configured ones when it names none, with the reserved pool first; an instance whose stage cannot be recorded is destroyed at once with the reserved one |
| `SetupFallback.NothingIsLeftBehind` | command/harness/setup.go:143-283 | With all clean-ups run, exactly what the request gave up is gone; a failed request has given up everything it took, a successful one everything but its machine |
| `SetupFallback.FirstSuccessAnswers` | command/harness/setup.go:219-262 | A request fails only if no attempt in a known pool could provision and come up; otherwise the first success answers, with its own spare or the reserved instance |
| `SetupFallback.ReservedFirst` | command/harness/setup.go:181-222 | A live reserved instance answers the request when its pool is known and among those asked for and the first attempt passes its phases |
| `SetupFallback.UnrecordedLeavesNothing` | command/harness/setup.go:251-274 | When the stage of a machine cannot be recorded the request fails, and with all clean-ups run it has left no instance and touched none that is neither its reserved one nor a spare; the machine and the reserved instance are gone |
| `SetupFallback.Requested` | command/harness/setup.go:143-150 | The pools asked for are the requested one and then its own fallbacks, or the configured ones exactly when it has none |
| `SetupFallback.MachineSurvivesIff` | command/harness/setup.go:143-283 | Whatever the attempts meet and whenever clean-ups run, the machine of a successful request survives them, if and only if there is no live reserved instance in a known pool that the request asks for twice |
| `SetupFallback.RepeatedPoolLosesTheMachine` | command/harness/setup.go:219-262 | For every such request the attempts under which it succeeds with the reserved instance and the instance is gone |
| `SetupFallback.LoseTheMachine` | command/harness/setup.go:143-283 | HandleSetup run on those attempts answers with the reserved instance, which no longer exists once the clean-ups ran |

## Left out

- Suspend and findOrCreateInstance, which return an in-use row to created on purpose: the hand-out theorems are about runs without them.
- Clean-up or resume requests that rebuild other rows from the request: StartInstance with instance information is not a step; StartInstance on a stored row appears as waking the VM and writing the row back.
- ForceDeletion.ForcedLateIff: is about runs without those resume requests; a row they rebuilt would carry no start time either.
- Store implementations and SQL text: a claim is one atomic step, an update of a missing row changes nothing, and a purger's update or delete is one statement.
- Which rows match a query (pool, tenant, variant, image, machine type): sets chosen by the caller of each operation; so are filterVariants and the order among matching created rows.
- Drivers: an instance a driver does not report as failed is assumed gone; drivers that return an error and no failed instances are outside this assumption. Ids of new instances are assumed fresh.
- InstanceSafety.DestroyBeforeForget: excepts rows the age limit removed; the VM of such a row may be leaked, as the warning the code logs says.
- PoolLock.LiveIsRecorded: creating a VM and storing its row is one step of this protocol, so a VM whose row cannot be stored is not in it; DistributedRunner.Cluster.SetupInstance has that case.
- PoolLock.LockedPool.Hibernate: its exact effect is stated for a gap in which nobody else acts; with others acting it is a run of the protocol.
- DistributedRunner.Cluster.HandleDestroy: the same, and the number of attempts is a parameter instead of a back-off timer; the lite-engine call and the stage owner record have no effect on the table.
- The outbox jobs that replenish pools, and the maximum pool size under concurrency, which the code does not bound because it drops the lock before creating.
- Reservations are those of one pool. The age limit of sweeps is assumed not negative.
- ReservedMachines.SetupsAreSparedIff: a stage whose reservation somebody began to destroy is excepted, since its machine is meant to go; instance rows are not in this protocol, a look-up finds the tag of the setup.
- SetupFallback.Setup.HandleSetup: what happens to the reservation itself is left to the reservation protocol; clean-up destroys are assumed to succeed.
- JSON encoding of specs: trees, and a decoding function that may refuse the merged tree.
- Volume rules of the linter: one flag per step; pool and platform checks are not part of this model.
- Everything Compile builds other than steps and their dependencies.
- Floating point: reals; an EMA period of minus one, which divides by zero, is excluded. The sorting algorithm is only required to sort.
- PredictionLaws.PredictionIsMonotone: records of one instant may be sorted either way, so it is stated for distinct instants.
- Single-tenant pool building, which takes the same decision over all rows of the pool, and the removal of rows after excess instances are destroyed, which the code does not do.
- Which variants serve accounts recorded under an old tenant id: VariantsForTenant has no fallback for them.
- What a job does when it runs: the scheduler model stops at its context. A job registered to run at once after Stop still executes once in the program.
- Metrics, logging, flags, HTTP handlers, certificates, clocks and sleeps.
