/** The operations of one runner when the others are idle, by what each leaves in the table and in the
    cloud. */
module QuietRunner {
  import opened InstanceProtocol
  import opened DistributedRunner
  import Safety = InstanceSafety

  /** Gaps in which nobody acts. */
  function Silence(n: nat): (env: seq<Run>)
    ensures |env| == n && forall k | 0 <= k < n :: env[k] == []
  {
    seq(n, _ => [])
  }

  predicate OthersStay(s: map<Id, Row>, t: map<Id, Row>, id: Id) {
    && (forall x | x in s && x != id :: x in t && t[x] == s[x]) && forall x | x in t && x != id :: x in s
  }

  /** A new warm instance: its VM stays without a row exactly when the row cannot be stored and the
      driver cannot destroy it either, and with its row when it connects or cannot be destroyed. */
  method SeedAlone(c: Cluster, id: Id, stores: bool, destroys: bool, connects: bool, shouldHibernate: bool,
                   answers: seq<bool>, failed: set<Id>, job: JobId) returns (ok: bool)
    requires c.Faithful() && id !in c.s.born && job !in c.s.jobs && |answers| == 3
    modifies c
    ensures c.Faithful() && ok == stores && OthersStay(old(c.s).rows, c.s.rows, id)
    ensures id in c.s.rows ==> stores && id in c.s.live && c.s.rows[id].started == old(c.s).now
    ensures id in c.s.live <==> if stores then connects || id in failed else !destroys
    ensures stores && connects ==>
      && id in c.s.rows && c.s.rows[id].state == Created
      && (c.s.rows[id].hibernated <==> shouldHibernate && exists k | 0 <= k < 3 :: answers[k])
    ensures stores && !connects ==> (id in c.s.rows <==> id in failed)
  {
    assert id !in c.s.rows && id !in c.s.live by { Safety.SafeRun(Init(Provisioning), c.run); }
    ok := c.SetupInstanceWithHibernate(id, stores, destroys, connects, shouldHibernate, answers, failed, job,
                                       Silence(7));
  }

  predicate Waits(s: State, matching: set<Id>) {
    exists id | id in matching :: id in s.rows && s.rows[id].state == Created
  }

  /** A request gets a created instance of the first variant that has one, and it is now in use and
      starts its age; without any it gets a new one. */
  method ProvisionAlone(c: Cluster, variants: seq<set<Id>>, request: RequestId, spare: Id, stores: bool,
                        destroys: bool, job: JobId) returns (instance: seq<Id>, warmed: bool)
    requires c.Faithful() && Unused(c.s, spare, job) && EmptyHanded(c.s, request)
    modifies c
    ensures c.Faithful() && |instance| <= 1
    ensures warmed <==> exists k | 0 <= k < |variants| :: Waits(old(c.s), variants[k])
    ensures warmed ==>
      && |instance| == 1
      && (exists k | 0 <= k < |variants| :: instance[0] in variants[k] &&
            (forall j | 0 <= j < k :: !Waits(old(c.s), variants[j])))
      && instance[0] in old(c.s).rows && old(c.s).rows[instance[0]].state == Created
    ensures !warmed ==> instance == if stores then [spare] else []
    ensures instance != [] ==>
      && OthersStay(old(c.s).rows, c.s.rows, instance[0]) && instance[0] in c.s.rows
      && c.s.rows[instance[0]].state == InUse && c.s.rows[instance[0]].started == old(c.s).now
    ensures instance == [] ==> c.s.rows == old(c.s).rows
  {
    var n := |variants|;
    instance, warmed := c.ProvisionFromPool(variants, request, spare, stores, destroys, job, Silence(n + 2));
  }

  /** A destroy request ends the VM when some attempt gets the driver to do it. One that must look its
      instance up needs a row in use that some request was given, and that attempt must not come after
      one that marked the row. */
  method DestroyAlone(c: Cluster, id: Id, described: bool, attempts: seq<DestroyAttempt>, request: RequestId,
                      job: JobId) returns (ok: bool)
    requires c.Faithful() && id in c.s.born && job !in c.s.jobs && EmptyHanded(c.s, request)
    modifies c
    ensures c.Faithful()
    ensures described ==> (ok <==> exists k | 0 <= k < |attempts| :: attempts[k].destroyed)
    ensures !described ==>
      (ok <==>
        && id in old(c.s).rows && old(c.s).rows[id].state == InUse && id in old(c.s).handed + old(c.s).owned
        && exists k | 0 <= k < |attempts| :: attempts[k].destroyed && forall j | 0 <= j < k :: !attempts[j].written)
    ensures c.s.live == if ok then old(c.s).live - {id} else old(c.s).live
  {
    ok := c.HandleDestroy(id, described, attempts, request, job, Silence(|attempts|), Silence(|attempts|));
  }
}
