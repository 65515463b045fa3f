/** One resource: its lease store, its template and its learning mode, and what
    a decision does to them. */
module Resources {
  import opened Arithmetic
  import opened Sums
  import opened Store
  import opened Algorithms
  import opened Targets

  datatype Option<+T> = None | Some(value: T)

  /** Lengths are in seconds, as in the configuration. */
  datatype Algorithm =
    Algorithm(kind: Kind, leaseLength: int, refreshInterval: int, learningModeDuration: Option<int>)

  datatype Template = Template(capacity: real, safeCapacity: Option<real>, algorithm: Algorithm)

  /** The learning mode lasts as long as a lease unless configured otherwise. */
  function LearningModeDuration(algorithm: Algorithm): int {
    var configured := algorithm.learningModeDuration;
    Seconds(if configured.Some? then configured.value else algorithm.leaseLength)
  }

  /** Without a positive duration there is no learning mode. */
  function LearningModeEndTime(becameMasterAt: int, duration: int): int {
    if duration <= 0 then 0 else becameMasterAt + duration
  }

  /** What a resource is, as a value. */
  datatype State = State(leases: Leases, template: Template, learningModeEndTime: int, expiryTime: Option<int>)

  ghost predicate ValidState(s: State) {
    Counted(Demands(s.leases))
  }

  function NewState(template: Template, becameMasterAt: int): State {
    State(map[], template, LearningModeEndTime(becameMasterAt, LearningModeDuration(template.algorithm)), None)
  }

  predicate Learning(s: State, now: int) {
    s.learningModeEndTime > now
  }

  /** The capacity is gone once the lease from the parent server has run out. */
  function CapacityAt(s: State, now: int): real {
    if s.expiryTime.Some? && s.expiryTime.value < now then 0.0 else s.template.capacity
  }

  lemma CleanedIsCounted(m: Leases, now: int)
    requires Counted(Demands(m))
    ensures Counted(Demands(Cleaned(m, now)))
  {
    forall c | c in Demands(Cleaned(m, now))
      ensures 1 <= Demands(Cleaned(m, now))[c].subclients
    {
      assert Demands(m)[c] == Demands(Cleaned(m, now))[c];
    }
  }

  /** The lease that a decision grants when no lease in the store has expired. */
  ghost function OnClean(s: State, r: Request, now: int): Lease
    requires ValidState(s) && 1 <= r.subclients
  {
    var algorithm := s.template.algorithm;
    Lease(now + Seconds(algorithm.leaseLength), Seconds(algorithm.refreshInterval),
          if Learning(s, now) then r.has else Grant(algorithm.kind, s.leases, CapacityAt(s, now), r),
          r.wants, r.subclients)
  }

  /** The lease that a decision grants. */
  ghost function Decision(s: State, r: Request, now: int): Lease
    requires ValidState(s) && 1 <= r.subclients
  {
    CleanedIsCounted(s.leases, now);
    OnClean(s.(leases := Cleaned(s.leases, now)), r, now)
  }

  ghost function Decided(s: State, r: Request, now: int): State
    requires ValidState(s) && 1 <= r.subclients
  {
    s.(leases := Cleaned(s.leases, now)[r.client := Decision(s, r, now)])
  }

  lemma DecidedIsValid(s: State, r: Request, now: int)
    requires ValidState(s) && 1 <= r.subclients
    ensures ValidState(Decided(s, r, now))
  {
    hide Decision;
    CleanedIsCounted(s.leases, now);
    DemandsChange(Cleaned(s.leases, now), r.client, Decision(s, r, now));
    assert Decision(s, r, now).subclients == r.subclients by { DecisionDemand(s, r, now); }
  }

  lemma DecisionDemand(s: State, r: Request, now: int)
    requires ValidState(s) && 1 <= r.subclients
    ensures var lease := Decision(s, r, now);
            && lease.wants == r.wants && lease.subclients == r.subclients
            && lease.expiry == now + Seconds(s.template.algorithm.leaseLength)
            && lease.refreshInterval == Seconds(s.template.algorithm.refreshInterval)
    ensures Learning(s, now) ==> Decision(s, r, now).has == r.has
  {
    hide Grant;
  }

  lemma CountOfNone(m: Leases)
    requires Counted(Demands(m))
    ensures Count(Demands(m)) == 0.0 <==> m == map[]
  {
    CountPositive(Demands(m));
    SumEmpty(SubsOf(Demands(m)));
  }

  /** The capacity that a client may fall back to: the configured one, or else an
      equal part for each known subclient, which is undefined for none. */
  ghost function SafeOf(s: State): Option<real>
    requires ValidState(s)
  {
    CountOfNone(s.leases);
    if s.template.safeCapacity.Some? then s.template.safeCapacity
    else if s.leases == map[] then None
    else Some(s.template.capacity / Count(Demands(s.leases)))
  }

  class Resource {
    const id: string
    const store: LeaseStore
    var template: Template
    var learningModeEndTime: int
    var expiryTime: Option<int>

    ghost predicate Valid()
      reads this, store
    {
      store.Valid() && ValidState(AsState())
    }

    ghost function AsState(): State
      reads this, store
    {
      State(store.leases, template, learningModeEndTime, expiryTime)
    }

    constructor (id: string, template: Template, becameMasterAt: int)
      ensures Valid() && fresh(this) && fresh(store)
      ensures this.id == id && AsState() == NewState(template, becameMasterAt)
      ensures store.leases == map[] && this.template == template && expiryTime == None
      ensures var configured, lease := template.algorithm.learningModeDuration, template.algorithm.leaseLength;
              var seconds := if configured == None then lease else configured.value;
              learningModeEndTime == if seconds <= 0 then 0 else becameMasterAt + 1_000_000_000 * seconds
    {
      this.id := id;
      this.store := new LeaseStore();
      this.template := template;
      this.expiryTime := None;
      this.learningModeEndTime := LearningModeEndTime(becameMasterAt, LearningModeDuration(template.algorithm));
    }

    /** A new template takes effect at once, but neither the leases nor the end
        of the learning mode change. */
    method LoadConfig(template: Template, expiryTime: Option<int>)
      requires Valid()
      modifies this
      ensures Valid() && AsState() == old(AsState()).(template := template, expiryTime := expiryTime)
      ensures this.template == template && this.expiryTime == expiryTime
      ensures learningModeEndTime == old(learningModeEndTime) && store.leases == old(store.leases)
    {
      this.template, this.expiryTime := template, expiryTime;
    }

    method Release(client: string)
      requires Valid()
      modifies store
      ensures Valid() && AsState() == old(AsState()).(leases := old(AsState()).leases - {client})
    {
      DemandsChange(store.leases, client, ZERO_LEASE);
      store.Release(client);
    }

    /** Cleans the store, then learns what the client claims, or shares the
        capacity, which is zero once the expiry has passed. */
    method Decide(r: Request, now: int) returns (lease: Lease)
      requires Valid() && 1 <= r.subclients
      modifies store
      ensures Valid() && lease == Decision(old(AsState()), r, now)
      ensures AsState() == Decided(old(AsState()), r, now)
      ensures lease.expiry == now + 1_000_000_000 * template.algorithm.leaseLength
      ensures lease.refreshInterval == 1_000_000_000 * template.algorithm.refreshInterval
      ensures lease.wants == r.wants && lease.subclients == r.subclients
      ensures r.client in store.leases && store.leases[r.client] == lease
      ensures forall c | c != r.client ::
                c in store.leases <==> c in old(store.leases) && now <= old(store.leases)[c].expiry
      ensures forall c | c in store.leases && c != r.client :: store.leases[c] == old(store.leases)[c]
      ensures now < learningModeEndTime ==> lease.has == r.has
      ensures learningModeEndTime <= now ==>
              var capacity := if expiryTime.Some? && expiryTime.value < now then 0.0 else template.capacity;
              && Counted(Demands(Cleaned(old(store.leases), now)))
              && lease.has == Grant(template.algorithm.kind, Cleaned(old(store.leases), now), capacity, r)
    {
      ghost var before := AsState();
      CleanedIsCounted(store.leases, now);
      hide Grant, Demands, Cleaned, SumHas, SumWants, Count;
      var removed := store.Clean(now);
      lease := DecideOnClean(r, now);
      DecidedIsValid(before, r, now);
    }

    method DecideOnClean(r: Request, now: int) returns (lease: Lease)
      requires Valid() && 1 <= r.subclients
      modifies store
      ensures store.Valid() && store.leases == old(store.leases)[r.client := lease]
      ensures lease == OnClean(old(AsState()), r, now)
    {
      hide Grant, Seconds, Demands, SumHas, SumWants, Count;
      var length, interval := Seconds(template.algorithm.leaseLength), Seconds(template.algorithm.refreshInterval);
      var capacity := if expiryTime.Some? && expiryTime.value < now then 0.0 else template.capacity;
      if learningModeEndTime > now {
        lease := RunLearn(store, capacity, r, length, interval, now);
      } else {
        lease := RunAlgorithm(template.algorithm.kind, store, capacity, r, length, interval, now);
      }
    }

    /** The safe capacity: configured, or times the known subclients the capacity. */
    method SafeCapacity() returns (safe: Option<real>)
      requires Valid()
      ensures safe == SafeOf(AsState())
      ensures template.safeCapacity.Some? ==> safe == template.safeCapacity
      ensures template.safeCapacity.None? ==> (safe.None? <==> store.leases == map[])
      ensures template.safeCapacity.None? && safe.Some? ==>
              safe.value * Count(Demands(store.leases)) == template.capacity
    {
      CountOfNone(store.leases);
      hide Count;
      if template.safeCapacity.Some? {
        safe := template.safeCapacity;
      } else if store.count == 0 {
        safe := None;
      } else {
        safe := Some(template.capacity / store.count as real);
      }
    }
  }
}
