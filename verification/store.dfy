/** The lease store: a map of leases with three sums cached beside it. */
module Store {
  import opened Sums

  /** A lease on capacity of one resource for one client. */
  datatype Lease = Lease(expiry: int, refreshInterval: int, has: real, wants: real, subclients: int)

  type Leases = map<string, Lease>

  /** What Go's map lookup yields for a client without a lease. */
  const ZERO_LEASE := Lease(0, 0, 0.0, 0.0, 0)

  function Get(m: Leases, c: string): Lease {
    if c in m then m[c] else ZERO_LEASE
  }

  /** The part of a lease that the share algorithms read from other clients. */
  datatype Demand = Demand(wants: real, subclients: int)

  type DemandMap = map<string, Demand>

  /** The same keys, with the demand of each lease. */
  ghost predicate AreDemands(m: Leases, d: DemandMap) {
    d.Keys == m.Keys && forall c | c in m :: d[c] == Demand(m[c].wants, m[c].subclients)
  }

  lemma {:induction false} DemandsExist(m: Leases)
    ensures exists d :: AreDemands(m, d)
    decreases |m|
  {
    if m == map[] {
      assert AreDemands(m, map[]);
    } else {
      var c :| c in m;
      DemandsExist(m - {c});
      var d :| AreDemands(m - {c}, d);
      assert AreDemands(m, d[c := Demand(m[c].wants, m[c].subclients)]);
    }
  }

  /** What the store knows of each client's demand, characterised by `AreDemands`. */
  ghost function Demands(m: Leases): (d: DemandMap)
    ensures AreDemands(m, d)
  {
    DemandsExist(m);
    var d :| AreDemands(m, d);
    d
  }

  function Want(d: DemandMap, c: string): real {
    if c in d then d[c].wants else 0.0
  }

  function Subs(d: DemandMap, c: string): real {
    if c in d then d[c].subclients as real else 0.0
  }

  function HasOf(m: Leases): string -> real { c => Get(m, c).has }

  function WantsOf(d: DemandMap): string -> real { c => Want(d, c) }

  function SubsOf(d: DemandMap): string -> real { c => Subs(d, c) }

  ghost function SumHas(m: Leases): real { Sum(m.Keys, HasOf(m)) }

  ghost function SumWants(d: DemandMap): real { Sum(d.Keys, WantsOf(d)) }

  ghost function Count(d: DemandMap): real { Sum(d.Keys, SubsOf(d)) }

  /** A lease outlives its expiry instant: it is dropped only after it. */
  predicate Expired(lease: Lease, now: int) {
    now > lease.expiry
  }

  function Cleaned(m: Leases, now: int): Leases {
    m - set c | c in m && Expired(m[c], now)
  }

  // ---- How one assignment or removal moves each sum ----

  lemma SumHasChange(m: Leases, c: string, lease: Lease)
    ensures SumHas(m[c := lease]) == SumHas(m) - Get(m, c).has + lease.has
    ensures SumHas(m - {c}) == SumHas(m) - Get(m, c).has
  {
    SumChange(m.Keys, c, HasOf(m), HasOf(m[c := lease]));
    SumChange(m.Keys, c, HasOf(m), HasOf(m - {c}));
    assert m[c := lease].Keys == m.Keys + {c};
    assert (m - {c}).Keys == m.Keys - {c};
  }

  lemma DemandChange(d: DemandMap, c: string, x: Demand)
    ensures SumWants(d[c := x]) == SumWants(d) - Want(d, c) + x.wants
    ensures SumWants(d - {c}) == SumWants(d) - Want(d, c)
    ensures Count(d[c := x]) == Count(d) - Subs(d, c) + x.subclients as real
    ensures Count(d - {c}) == Count(d) - Subs(d, c)
  {
    assert d[c := x].Keys == d.Keys + {c};
    assert (d - {c}).Keys == d.Keys - {c};
    SumChange(d.Keys, c, WantsOf(d), WantsOf(d[c := x]));
    SumChange(d.Keys, c, WantsOf(d), WantsOf(d - {c}));
    SumChange(d.Keys, c, SubsOf(d), SubsOf(d[c := x]));
    SumChange(d.Keys, c, SubsOf(d), SubsOf(d - {c}));
  }

  lemma DemandsChange(m: Leases, c: string, lease: Lease)
    ensures Demands(m[c := lease]) == Demands(m)[c := Demand(lease.wants, lease.subclients)]
    ensures Demands(m - {c}) == Demands(m) - {c}
  {
  }

  /** Assigning a lease moves each sum by the difference to the old lease. */
  lemma AssignMovesSums(m: Leases, c: string, lease: Lease)
    ensures SumHas(m[c := lease]) == SumHas(m) - Get(m, c).has + lease.has
    ensures SumWants(Demands(m[c := lease])) == SumWants(Demands(m)) - Get(m, c).wants + lease.wants
    ensures Count(Demands(m[c := lease])) == Count(Demands(m)) - Get(m, c).subclients as real + lease.subclients as real
  {
    SumHasChange(m, c, lease);
    DemandsChange(m, c, lease);
    DemandChange(Demands(m), c, Demand(lease.wants, lease.subclients));
  }

  /** Releasing a client takes its lease out of each sum. */
  lemma ReleaseMovesSums(m: Leases, c: string)
    ensures SumHas(m - {c}) == SumHas(m) - Get(m, c).has
    ensures SumWants(Demands(m - {c})) == SumWants(Demands(m)) - Get(m, c).wants
    ensures Count(Demands(m - {c})) == Count(Demands(m)) - Get(m, c).subclients as real
  {
    SumHasChange(m, c, ZERO_LEASE);
    DemandsChange(m, c, ZERO_LEASE);
    DemandChange(Demands(m), c, Demand(0.0, 0));
  }

  /** Dropping expired leases can only lower the committed capacity when no
      grant is negative. */
  lemma CleanLowersSumHas(m: Leases, now: int)
    requires forall c | c in m :: 0.0 <= m[c].has
    ensures SumHas(Cleaned(m, now)) <= SumHas(m)
  {
    SumDominated(Cleaned(m, now).Keys, HasOf(Cleaned(m, now)), m.Keys, HasOf(m));
  }

  class LeaseStore {
    var leases: Leases
    var sumHas: real
    var sumWants: real
    var count: int

    /** The cached fields are the sums over the lease map. */
    ghost predicate Valid()
      reads this
    {
      && sumHas == SumHas(leases)
      && sumWants == SumWants(Demands(leases))
      && count as real == Count(Demands(leases))
    }

    constructor ()
      ensures Valid() && leases == map[]
    {
      leases, sumHas, sumWants, count := map[], 0.0, 0.0, 0;
    }

    method Release(client: string)
      requires Valid()
      modifies this
      ensures Valid() && leases == old(leases) - {client}
    {
      if client !in leases {
        return;
      }
      ReleaseMovesSums(leases, client);
      hide SumHas, SumWants, Count, Demands;
      var lease := leases[client];
      sumWants := sumWants - lease.wants;
      sumHas := sumHas - lease.has;
      count := count - lease.subclients;
      leases := leases - {client};
    }

    method Assign(client: string, leaseLength: int, refreshInterval: int,
                  has: real, wants: real, subclients: int, now: int)
      returns (lease: Lease)
      requires Valid()
      modifies this
      ensures Valid() && leases == old(leases)[client := lease]
      ensures lease == Lease(now + leaseLength, refreshInterval, has, wants, subclients)
    {
      var was := Get(leases, client);
      lease := Lease(now + leaseLength, refreshInterval, has, wants, subclients);
      AssignMovesSums(leases, client, lease);
      hide SumHas, SumWants, Count, Demands;
      sumHas := sumHas + (has - was.has);
      sumWants := sumWants + (wants - was.wants);
      count := count + (subclients - was.subclients);
      leases := leases[client := lease];
    }

    /** Deletes while it iterates, in any order; exactly the leases that have
        not passed their expiry remain. */
    method Clean(now: int) returns (removed: nat)
      requires Valid()
      modifies this
      ensures Valid()
      ensures forall c :: c in leases <==> c in old(leases) && now <= old(leases)[c].expiry
      ensures forall c | c in leases :: leases[c] == old(leases)[c]
      ensures removed == |old(leases)| - |leases|
      ensures leases == Cleaned(old(leases), now)
    {
      hide SumHas, SumWants, Count, Demands;
      removed := 0;
      var todo := leases.Keys;
      while todo != {}
        invariant Valid()
        invariant todo <= leases.Keys <= old(leases).Keys
        invariant forall c | c in old(leases) && c !in todo :: c in leases <==> now <= old(leases)[c].expiry
        invariant forall c | c in leases :: leases[c] == old(leases)[c]
        invariant removed == |old(leases)| - |leases|
        decreases todo
      {
        var client :| client in todo;
        todo := todo - {client};
        if Expired(leases[client], now) {
          ghost var before := leases.Keys;
          Release(client);
          assert leases.Keys == before - {client};
          removed := removed + 1;
        }
      }
      assert leases == Cleaned(old(leases), now);
    }
  }
}
