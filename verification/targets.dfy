/** Requests that repeat the stored demand, and what holds of both share
    algorithms. */
module Targets {
  import opened Arithmetic
  import opened Sums
  import opened Store
  import opened Algorithms

  /** The request carries the same wants and subclients as the stored lease. */
  predicate Repeats(d: DemandMap, r: Request) {
    r.client in d && d[r.client] == Demand(r.wants, r.subclients)
  }

  function Repeat(d: DemandMap, c: string): Request
    requires c in d
  {
    Request(c, 0.0, d[c].wants, d[c].subclients)
  }

  /** The target of every client when all of them repeat their demands. */
  ghost function TargetOf(kind: Kind, d: DemandMap, capacity: real): string -> real
    requires Counted(d)
  {
    c => if c in d then Target(kind, d, capacity, Repeat(d, c)) else 0.0
  }

  ghost function SumTargets(kind: Kind, d: DemandMap, capacity: real): real
    requires Counted(d)
  {
    Sum(d.Keys, TargetOf(kind, d, capacity))
  }

  ghost predicate Uniform(d: DemandMap, n: int) {
    1 <= n && forall c | c in d :: d[c].subclients == n
  }

  /** The equal share of one subclient when every client repeats its demand. */
  ghost function Share(d: DemandMap, capacity: real): real
    requires Counted(d) && d != map[]
  {
    CountPositive(d);
    capacity / Count(d)
  }

  /** The shares hand out exactly the capacity. */
  lemma SharesUseCapacity(d: DemandMap, capacity: real)
    requires Counted(d) && d != map[]
    ensures Sum(d.Keys, ShareOf(d, Share(d, capacity))) == capacity
  {
    CountPositive(d);
    SumScale(d.Keys, Share(d, capacity), SubsOf(d), ShareOf(d, Share(d, capacity)));
    hide Sum;
  }

  /** What the client claims to hold plays no part in its target. */
  lemma TargetIgnoresClaim(kind: Kind, d: DemandMap, capacity: real, r: Request, has: real)
    requires Counted(d) && 1 <= r.subclients
    ensures Target(kind, d, capacity, r) == Target(kind, d, capacity, r.(has := has))
  {
    match kind
    case FairShare => FairTargetIgnoresClaim(d, capacity, r, has);
    case ProportionalShare => PropTargetIgnoresClaim(d, capacity, r, has);
    case _ =>
  }

  lemma FairTargetIgnoresClaim(d: DemandMap, capacity: real, r: Request, has: real)
    requires Counted(d) && 1 <= r.subclients
    ensures FairTarget(d, capacity, r) == FairTarget(d, capacity, r.(has := has))
  {
    hide Sum, Entitled, Count;
    var q := r.(has := has);
    assert FairEqualShare(d, capacity, r) == FairEqualShare(d, capacity, q);
    hide FairEqualShare;
    assert FairLevel(d, capacity, r) == FairLevel(d, capacity, q);
    hide FairLevel;
    assert FairSecondExtra(d, capacity, r) == FairSecondExtra(d, capacity, q);
    hide FairSecondExtra;
  }

  /** A target does not depend on what the store knows of the requesting client. */
  lemma TargetSeesOthers(d: DemandMap, capacity: real, r: Request)
    requires Counted(d) && 1 <= r.subclients
    ensures var x := d[r.client := Demand(r.wants, r.subclients)];
            Counted(x) && FairTarget(d, capacity, r) == FairTarget(x, capacity, r)
  {
    var x := d[r.client := Demand(r.wants, r.subclients)];
    assert d - {r.client} == x - {r.client};
    assert FairEqualShare(d, capacity, r) == FairEqualShare(x, capacity, r) by { hide Count; }
    hide FairEqualShare, Sum, Entitled;
    assert FairLevel(d, capacity, r) == FairLevel(x, capacity, r);
    hide FairLevel;
    assert FairSecondExtra(d, capacity, r) == FairSecondExtra(x, capacity, r);
    hide FairSecondExtra;
  }

  lemma PropTargetIgnoresClaim(d: DemandMap, capacity: real, r: Request, has: real)
    requires Counted(d) && 1 <= r.subclients
    ensures PropTarget(d, capacity, r) == PropTarget(d, capacity, r.(has := has))
  {
    hide Sum, Entitled, Count, SumWants, ShortOf, OverOf;
    var q := r.(has := has);
    assert Seen(d, r) == Seen(d, q);
    hide Seen;
    assert PropShare(d, capacity, r) == PropShare(d, capacity, q);
    hide PropShare;
  }

  /** The share that a client has an absolute claim on. */
  ghost function EqualShare(kind: Kind, d: DemandMap, capacity: real, r: Request): real
    requires Counted(d) && 1 <= r.subclients && Shares(kind)
  {
    if kind.FairShare? then FairEqualShare(d, capacity, r) else PropShare(d, capacity, r)
  }

  /** Whatever the store holds, and whichever branch is taken, a client gets at
      least the smallest of what it wants, its equal share and what is unused;
      and it never gets more than what is unused. */
  lemma GuaranteedShare(kind: Kind, m: Leases, capacity: real, r: Request)
    requires Counted(Demands(m)) && 1 <= r.subclients && Shares(kind) && (kind.FairShare? || 0.0 <= capacity)
    ensures Min(Min(r.wants, Entitled(EqualShare(kind, Demands(m), capacity, r), r.subclients)),
                Unused(m, capacity, r.client))
            <= Grant(kind, m, capacity, r) <= Unused(m, capacity, r.client)
  {
    var d := Demands(m);
    GrantIsTarget(kind, m, capacity, r);
    hide Grant;
    if kind.FairShare? {
      FairTargetAtLeastShare(d, capacity, r);
    } else {
      PropTargetAtLeastShare(d, capacity, r);
    }
    hide Sum, Entitled, FairEqualShare, PropShare, SumHas, FairTarget, PropTarget;
  }

  lemma PropTargetAtLeastShare(d: DemandMap, capacity: real, r: Request)
    requires Counted(d) && 1 <= r.subclients && 0.0 <= capacity
    ensures Min(r.wants, Entitled(PropShare(d, capacity, r), r.subclients)) <= PropTarget(d, capacity, r)
  {
    if PropTopsUp(d, capacity, r) {
      var e := PropShare(d, capacity, r);
      ExtraNeedPositive(d, capacity, r);
      OverAtLeastExcess(Seen(d, r), e);
      assert Seen(d, r).Keys == d.Keys;
      TopUp(Entitled(e, r.subclients), r.wants,
            Sum(d.Keys, ShortOf(Seen(d, r), e)), Sum(d.Keys, OverOf(Seen(d, r), e)));
    }
    hide Sum, Entitled, PropShare, SumWants;
  }

  lemma TopUp(mine: real, wants: real, extra: real, need: real)
    requires mine < wants && 0.0 <= extra && 0.0 < need
    ensures mine <= mine + (wants - mine) * (extra / need)
    ensures mine + (wants - mine) * (extra / need) <= wants <==> extra <= need
  {
    var ratio := extra / need;
    assert ratio * need == extra;
    assert 0.0 <= ratio;
    assert 0.0 <= (wants - mine) * ratio;
    assert ratio <= 1.0 <==> extra <= need by {
      if ratio <= 1.0 { assert ratio * need <= 1.0 * need; } else { assert ratio * need > 1.0 * need; }
    }
    assert wants - (mine + (wants - mine) * ratio) == (wants - mine) * (1.0 - ratio);
    assert (wants - mine) * (1.0 - ratio) >= 0.0 <==> ratio <= 1.0;
  }

  lemma FairTargetAtLeastShare(d: DemandMap, capacity: real, r: Request)
    requires Counted(d) && 1 <= r.subclients
    ensures Min(r.wants, Entitled(FairEqualShare(d, capacity, r), r.subclients)) <= FairTarget(d, capacity, r)
  {
    FairExtrasNonnegative(d, capacity, r);
    hide Sum, Entitled, FairEqualShare, FairLevel, FairSecondExtra;
  }

  lemma FairExtrasNonnegative(d: DemandMap, capacity: real, r: Request)
    requires Counted(d) && 1 <= r.subclients
    ensures Entitled(FairEqualShare(d, capacity, r), r.subclients) <= FairLevel(d, capacity, r)
    ensures 0.0 <= FairSecondExtra(d, capacity, r)
  {
    var others, e, level := d - {r.client}, FairEqualShare(d, capacity, r), FairLevel(d, capacity, r);
    SumNonnegative(others.Keys, ShortOf(others, e));
    SumNonnegative(others.Keys, ContendersOf(others, e));
    SumNonnegative(others.Keys, BelowOf(others, e, level));
    SumNonnegative(others.Keys, AboveOf(others, e, level));
    PartNonnegative(Sum(others.Keys, ShortOf(others, e)),
                    r.subclients as real + Sum(others.Keys, ContendersOf(others, e)), r.subclients);
    PartNonnegative(Sum(others.Keys, BelowOf(others, e, level)),
                    r.subclients as real + Sum(others.Keys, AboveOf(others, e, level)), r.subclients);
    hide Sum, Entitled, FairEqualShare;
  }

  lemma PartNonnegative(x: real, whole: real, n: int)
    requires 0.0 <= x && 0.0 < whole && 1 <= n
    ensures 0.0 <= Entitled(x / whole, n)
  {
    assert 0.0 <= x / whole;
  }
}
