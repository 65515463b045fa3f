/** Bounded commitment: the share algorithms never commit more than the
    capacity, in one decision or over a whole run. */
module Commitment {
  import opened Store
  import opened Sums
  import opened Algorithms
  import opened Targets
  import opened Resources

  /** After every decision of a share algorithm no more than the capacity of the
      moment is committed, whatever the store held before. */
  lemma DecisionBoundsCommitment(s: State, r: Request, now: int)
    requires ValidState(s) && 1 <= r.subclients
    requires Shares(s.template.algorithm.kind) && !Learning(s, now)
    requires s.template.algorithm.kind.FairShare? || 0.0 <= s.template.capacity
    ensures SumHas(Decided(s, r, now).leases) <= CapacityAt(s, now)
    ensures s.expiryTime.Some? && s.expiryTime.value < now ==> SumHas(Decided(s, r, now).leases) <= 0.0
  {
    CleanedIsCounted(s.leases, now);
    GuaranteedShare(s.template.algorithm.kind, Cleaned(s.leases, now), CapacityAt(s, now), r);
    SumHasChange(Cleaned(s.leases, now), r.client, Decision(s, r, now));
    hide SumHas, Grant, EqualShare;
  }

  ghost predicate Bounded(s: State) {
    && ValidState(s) && Sane(Demands(s.leases)) && 0.0 <= s.template.capacity
    && (forall c | c in s.leases :: 0.0 <= s.leases[c].has)
    && SumHas(s.leases) <= s.template.capacity
  }

  datatype Operation =
    | Decide(r: Request, now: int)
    | Release(client: string)
    | Clean(now: int)

  /** A share algorithm decides, for a client with at least one subclient and no
      negative wants, while the capacity is what the template says. */
  predicate Admissible(s: State, op: Operation) {
    op.Decide? ==>
      && 1 <= op.r.subclients && 0.0 <= op.r.wants
      && !Learning(s, op.now) && CapacityAt(s, op.now) == s.template.capacity
  }

  ghost function Applied(s: State, op: Operation): State
    requires ValidState(s) && Admissible(s, op)
  {
    match op
    case Decide(r, now) => Decided(s, r, now)
    case Release(client) => s.(leases := s.leases - {client})
    case Clean(now) => s.(leases := Cleaned(s.leases, now))
  }

  lemma AppliedIsBounded(s: State, op: Operation)
    requires Bounded(s) && Shares(s.template.algorithm.kind) && Admissible(s, op)
    ensures Bounded(Applied(s, op))
  {
    match op
    case Decide(r, now) => DecideKeepsBounded(s, r, now);
    case Release(client) => ReleaseKeepsBounded(s, client);
    case Clean(now) => CleanKeepsBounded(s, now);
  }

  lemma DecideKeepsBounded(s: State, r: Request, now: int)
    requires Bounded(s) && Shares(s.template.algorithm.kind) && Admissible(s, Decide(r, now))
    ensures Bounded(Decided(s, r, now))
  {
    hide Decision, SumHas, Demands;
    DecisionIsNonnegative(s, r, now);
    DecisionBoundsCommitment(s, r, now);
    DecidedIsValid(s, r, now);
    DecisionDemand(s, r, now);
    CleanKeepsBounded(s, now);
    DemandsChange(Cleaned(s.leases, now), r.client, Decision(s, r, now));
  }

  lemma ReleaseKeepsBounded(s: State, client: string)
    requires Bounded(s)
    ensures Bounded(s.(leases := s.leases - {client}))
  {
    SumHasChange(s.leases, client, ZERO_LEASE);
    DemandsChange(s.leases, client, ZERO_LEASE);
    assert 0.0 <= Get(s.leases, client).has;
    hide SumHas, Demands;
  }

  lemma CleanKeepsBounded(s: State, now: int)
    requires Bounded(s)
    ensures Bounded(s.(leases := Cleaned(s.leases, now)))
  {
    CleanLowersSumHas(s.leases, now);
    CleanedIsCounted(s.leases, now);
    hide SumHas;
    var d := Demands(Cleaned(s.leases, now));
    assert forall c | c in d :: d[c] == Demands(s.leases)[c];
  }

  /** A share algorithm grants a negative amount exactly when others hold more
      than the capacity. */
  lemma NegativeExactlyWhenOvercommitted(kind: Kind, m: Leases, capacity: real, r: Request)
    requires Counted(Demands(m)) && Shares(kind) && 1 <= r.subclients && 0.0 <= r.wants && 0.0 <= capacity
    ensures 0.0 <= Grant(kind, m, capacity, r) <==> 0.0 <= Unused(m, capacity, r.client)
  {
    GuaranteedShare(kind, m, capacity, r);
    EqualShareNonnegative(kind, Demands(m), capacity, r);
    EntitledNonnegative(EqualShare(kind, Demands(m), capacity, r), r.subclients);
    hide SumHas, Grant, EqualShare, Entitled;
  }

  /** When another client holds 150 of 100, both share algorithms grant -50. */
  lemma OvercommittedGrant(kind: Kind)
    requires Shares(kind)
    ensures Grant(kind, map["b" := Lease(9, 1, 150.0, 150.0, 1)], 100.0, Request("a", 0.0, 10.0, 1)) == -50.0
  {
    var m, r := map["b" := Lease(9, 1, 150.0, 150.0, 1)], Request("a", 0.0, 10.0, 1);
    assert m.Keys == {"b"} && Demands(m).Keys == {"b"};
    SumOne("b", HasOf(m));
    assert Unused(m, 100.0, "a") == -50.0;
    hide SumHas;
    NegativeExactlyWhenOvercommitted(kind, m, 100.0, r);
    GrantIsTarget(kind, m, 100.0, r);
    TargetNonnegative(kind, Demands(m), 100.0, r);
    hide Grant, Target;
  }

  lemma TargetNonnegative(kind: Kind, d: DemandMap, capacity: real, r: Request)
    requires Counted(d) && Shares(kind) && 1 <= r.subclients && 0.0 <= r.wants && 0.0 <= capacity
    ensures 0.0 <= Target(kind, d, capacity, r)
  {
    EqualShareNonnegative(kind, d, capacity, r);
    EntitledNonnegative(EqualShare(kind, d, capacity, r), r.subclients);
    if kind.FairShare? {
      FairTargetAtLeastShare(d, capacity, r);
    } else {
      PropTargetAtLeastShare(d, capacity, r);
    }
    hide Entitled, FairEqualShare, PropShare, FairTarget, PropTarget;
  }

  /** Nothing keeps clients from asking for negative amounts. While one does and is
      granted -50, another gets 150 of 100. */
  lemma NegativeWantsLend()
    ensures var m := map["a" := Lease(9, 1, -50.0, -50.0, 1), "b" := Lease(9, 1, 0.0, 200.0, 1)];
            Grant(ProportionalShare, m, 100.0, Request("b", 0.0, 200.0, 1)) == 150.0
  {
    var m := map["a" := Lease(9, 1, -50.0, -50.0, 1), "b" := Lease(9, 1, 0.0, 200.0, 1)];
    var r := Request("b", 0.0, 200.0, 1);
    var d := Demands(m);
    assert m.Keys == d.Keys == {"a", "b"};
    assert d == map["a" := Demand(-50.0, 1), "b" := Demand(200.0, 1)] == Seen(d, r);
    SumTwo("a", "b", HasOf(m));
    SumTwo("a", "b", WantsOf(d));
    SumTwo("a", "b", SubsOf(d));
    hide Sum;
    assert PropShare(d, 100.0, r) == 50.0;
    assert Unused(m, 100.0, "b") == 150.0;
    hide PropShare, SumHas, Count;
    ShareAt(d, 50.0, "a");
    ShareAt(d, 50.0, "b");
    hide ShareOf;
    SumTwo("a", "b", ShortOf(d, 50.0));
    SumTwo("a", "b", OverOf(d, 50.0));
    assert Sum(d.Keys, ShortOf(d, 50.0)) == 100.0;
    assert Sum(d.Keys, OverOf(d, 50.0)) == 150.0;
    assert PropTopsUp(d, 100.0, r);
    hide SumWants, ShortOf, OverOf, Seen;
    assert 150.0 * (100.0 / 150.0) == 100.0;
    assert PropTarget(d, 100.0, r) == 150.0;
    GrantIsTarget(ProportionalShare, m, 100.0, r);
    hide Grant;
  }

  /** With nothing overcommitted, no grant is negative. */
  lemma DecisionIsNonnegative(s: State, r: Request, now: int)
    requires Bounded(s) && Shares(s.template.algorithm.kind) && 1 <= r.subclients && 0.0 <= r.wants
    requires !Learning(s, now) && CapacityAt(s, now) == s.template.capacity
    ensures 0.0 <= Decision(s, r, now).has
    ensures forall c | c in Cleaned(s.leases, now) :: 0.0 <= Cleaned(s.leases, now)[c].has
  {
    var m := Cleaned(s.leases, now);
    CleanedIsCounted(s.leases, now);
    CleanLowersSumHas(s.leases, now);
    assert 0.0 <= Get(m, r.client).has;
    NegativeExactlyWhenOvercommitted(s.template.algorithm.kind, m, s.template.capacity, r);
    hide SumHas, Grant;
  }

  lemma EqualShareNonnegative(kind: Kind, d: DemandMap, capacity: real, r: Request)
    requires Counted(d) && 1 <= r.subclients && 0.0 <= capacity && Shares(kind)
    ensures 0.0 <= EqualShare(kind, d, capacity, r)
  {
    CountPositive(d);
    CountPositive(d - {r.client});
    hide Sum, Count;
  }

  /** A run of operations, each admissible where it happens. */
  ghost predicate AllAdmissible(s: State, ops: seq<Operation>)
    requires Bounded(s) && Shares(s.template.algorithm.kind)
    decreases |ops|
  {
    ops == [] ||
    (Admissible(s, ops[0]) && (AppliedIsBounded(s, ops[0]); AllAdmissible(Applied(s, ops[0]), ops[1..])))
  }

  ghost function After(s: State, ops: seq<Operation>): (t: State)
    requires Bounded(s) && Shares(s.template.algorithm.kind) && AllAdmissible(s, ops)
    decreases |ops|
  {
    if ops == [] then s else AppliedIsBounded(s, ops[0]); After(Applied(s, ops[0]), ops[1..])
  }

  /** If a run starts with nothing overcommitted and no negative grant, every
      state it reaches is like that. */
  lemma {:induction false} RunStaysBounded(s: State, ops: seq<Operation>)
    requires Bounded(s) && Shares(s.template.algorithm.kind) && AllAdmissible(s, ops)
    ensures Bounded(After(s, ops)) && After(s, ops).template == s.template
    decreases |ops|
  {
    if ops != [] {
      AppliedIsBounded(s, ops[0]);
      RunStaysBounded(Applied(s, ops[0]), ops[1..]);
    }
  }
}
