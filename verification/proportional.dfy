/** What ProportionalShare divides up when every client repeats its demand. */
module Proportional {
  import opened Arithmetic
  import opened Sums
  import opened Store
  import opened Algorithms
  import opened Targets

  ghost predicate Overloaded(d: DemandMap, capacity: real) {
    SumWants(d) > capacity
  }

  ghost function TopUpRatio(d: DemandMap, capacity: real): real
    requires Counted(d) && d != map[] && Overloaded(d, capacity)
  {
    NeedExceedsExtra(d, capacity);
    Sum(d.Keys, ShortOf(d, Share(d, capacity))) / Sum(d.Keys, OverOf(d, Share(d, capacity)))
  }

  /** The fraction of its need that a client gets on top of its share. */
  ghost function TopUpOf(d: DemandMap, capacity: real): string -> real
    requires Counted(d) && d != map[] && Overloaded(d, capacity)
  {
    c => TopUpRatio(d, capacity) * OverOf(d, Share(d, capacity))(c)
  }

  lemma NeedExceedsExtra(d: DemandMap, capacity: real)
    requires Counted(d) && d != map[] && Overloaded(d, capacity)
    ensures Share(d, capacity) * Count(d) == capacity
    ensures 0.0 <= Sum(d.Keys, ShortOf(d, Share(d, capacity))) < Sum(d.Keys, OverOf(d, Share(d, capacity)))
  {
    hide Sum;
    CountPositive(d);
    OverAtLeastExcess(d, Share(d, capacity));
  }

  /** In an overload every target is the client's share, less what it leaves,
      plus one and the same fraction of its need. */
  lemma TargetFormula(d: DemandMap, capacity: real, c: string)
    requires Counted(d) && 0.0 <= capacity && c in d && Overloaded(d, capacity)
    ensures var e, T := Share(d, capacity), TargetOf(ProportionalShare, d, capacity)(c);
            && 0.0 <= TopUpRatio(d, capacity) < 1.0
            && T + ShortOf(d, e)(c) == ShareOf(d, e)(c) + TopUpOf(d, capacity)(c)
  {
    hide Sum, SumWants;
    var e, r := Share(d, capacity), Repeat(d, c);
    NeedExceedsExtra(d, capacity);
    RatioBelowOne(Sum(d.Keys, ShortOf(d, e)), Sum(d.Keys, OverOf(d, e)));
    ShareAt(d, e, c);
    assert Seen(d, r) == d;
    assert PropShare(d, capacity, r) == e;
    hide PropShare, Share, Count, Entitled, ShareOf;
    assert TargetOf(ProportionalShare, d, capacity)(c) == PropTarget(d, capacity, r);
  }

  lemma RatioBelowOne(x: real, y: real)
    requires 0.0 <= x < y
    ensures 0.0 <= x / y < 1.0 && x / y * y == x
  {
    var q := x / y;
    assert q * y == x;
    assert (1.0 - q) * y == y - x;
  }

  /** The top-ups hand out exactly what was left unclaimed. */
  lemma TopUpsUseExtra(d: DemandMap, capacity: real)
    requires Counted(d) && d != map[] && Overloaded(d, capacity)
    ensures Sum(d.Keys, TopUpOf(d, capacity)) == Sum(d.Keys, ShortOf(d, Share(d, capacity)))
  {
    hide Sum, OverOf, ShortOf;
    var e := Share(d, capacity);
    NeedExceedsExtra(d, capacity);
    hide Share;
    RatioBelowOne(Sum(d.Keys, ShortOf(d, e)), Sum(d.Keys, OverOf(d, e)));
    SumScale(d.Keys, TopUpRatio(d, capacity), OverOf(d, e), TopUpOf(d, capacity));
  }

  /** When the stored wants exceed the capacity the targets of all clients add
      up to the capacity exactly. */
  lemma ConservesCapacity(d: DemandMap, capacity: real)
    requires Counted(d) && 0.0 <= capacity && d != map[] && Overloaded(d, capacity)
    ensures SumTargets(ProportionalShare, d, capacity) == capacity
  {
    hide Sum, ShareOf, ShortOf, TopUpOf, Target, Share;
    var e, T := Share(d, capacity), TargetOf(ProportionalShare, d, capacity);
    TopUpsUseExtra(d, capacity);
    SharesUseCapacity(d, capacity);
    var both: string -> real := c => T(c) + ShortOf(d, e)(c);
    forall c | c in d.Keys
      ensures both(c) == ShareOf(d, e)(c) + TopUpOf(d, capacity)(c)
    {
      TargetFormula(d, capacity, c);
    }
    SumAdd(d.Keys, both, T, ShortOf(d, e));
    SumAdd(d.Keys, both, ShareOf(d, e), TopUpOf(d, capacity));
  }

  lemma TopUpBounded(d: DemandMap, capacity: real, c: string)
    requires Counted(d) && d != map[] && Overloaded(d, capacity)
    ensures 0.0 <= TopUpOf(d, capacity)(c) <= OverOf(d, Share(d, capacity))(c)
  {
    hide Sum, OverOf, ShortOf;
    var e := Share(d, capacity);
    NeedExceedsExtra(d, capacity);
    RatioBelowOne(Sum(d.Keys, ShortOf(d, e)), Sum(d.Keys, OverOf(d, e)));
    OverNonnegative(d, e, c);
    Fraction(TopUpRatio(d, capacity), OverOf(d, e)(c));
  }

  lemma OverNonnegative(d: DemandMap, e: real, c: string)
    ensures 0.0 <= OverOf(d, e)(c)
  {
    hide ShareOf;
  }

  lemma Fraction(ratio: real, x: real)
    requires 0.0 <= ratio <= 1.0 && 0.0 <= x
    ensures 0.0 <= ratio * x <= x
  {
    assert 0.0 <= (1.0 - ratio) * x;
  }

  /** Each target lies between what the client is sure of and what it wants. */
  lemma TargetBetween(d: DemandMap, capacity: real, c: string)
    requires Counted(d) && 0.0 <= capacity && c in d
    ensures Min(d[c].wants, ShareOf(d, Share(d, capacity))(c))
            <= TargetOf(ProportionalShare, d, capacity)(c)
            <= d[c].wants
    ensures !Overloaded(d, capacity) ==> TargetOf(ProportionalShare, d, capacity)(c) == d[c].wants
  {
    hide Sum, Share, ShareOf, Entitled, PropShare, SumWants, Count, TopUpOf;
    if Overloaded(d, capacity) {
      TargetFormula(d, capacity, c);
      TopUpBounded(d, capacity, c);
    }
  }

  /** The targets always fit. */
  lemma TargetsFit(d: DemandMap, capacity: real)
    requires Counted(d) && 0.0 <= capacity
    ensures SumTargets(ProportionalShare, d, capacity) <= capacity
  {
    if d == map[] {
    } else if Overloaded(d, capacity) {
      ConservesCapacity(d, capacity);
    } else {
      forall c | c in d.Keys
        ensures TargetOf(ProportionalShare, d, capacity)(c) == WantsOf(d)(c)
      {
        TargetBetween(d, capacity, c);
      }
      SumSame(d.Keys, TargetOf(ProportionalShare, d, capacity), WantsOf(d));
    }
  }

  lemma SharesOrdered(d: DemandMap, capacity: real, a: string, b: string)
    requires Counted(d) && 0.0 <= capacity && a in d && b in d && d[a].subclients <= d[b].subclients
    ensures ShareOf(d, Share(d, capacity))(a) <= ShareOf(d, Share(d, capacity))(b)
  {
    CountPositive(d);
    var e := Share(d, capacity);
    assert 0.0 <= e by { hide Sum, Count; }
    hide Share;
    TimesOrdered(e, Subs(d, a), Subs(d, b));
  }

  /** Part of the way from the share to the wants. */
  function Between(ratio: real, share: real, wants: real): real {
    share + ratio * (wants - share)
  }

  lemma BetweenOrdered(ratio: real, share: real, wants: real, more: real, most: real)
    requires 0.0 <= ratio <= 1.0 && share <= more && wants <= most
    ensures Between(ratio, share, wants) <= Between(ratio, more, most)
  {
    assert Between(ratio, more, most) - Between(ratio, share, wants) ==
           (1.0 - ratio) * (more - share) + ratio * (most - wants);
    assert 0.0 <= (1.0 - ratio) * (more - share);
    assert 0.0 <= ratio * (most - wants);
  }

  lemma TargetIsBetween(d: DemandMap, capacity: real, c: string)
    requires Counted(d) && 0.0 <= capacity && c in d && Overloaded(d, capacity)
    ensures 0.0 <= TopUpRatio(d, capacity) < 1.0
    ensures ShareOf(d, Share(d, capacity))(c) <= d[c].wants ==>
            TargetOf(ProportionalShare, d, capacity)(c) ==
            Between(TopUpRatio(d, capacity), ShareOf(d, Share(d, capacity))(c), d[c].wants)
  {
    hide Sum, Target, Share, ShareOf, SumWants, TopUpRatio;
    TargetFormula(d, capacity, c);
    assert TopUpOf(d, capacity)(c) == TopUpRatio(d, capacity) * OverOf(d, Share(d, capacity))(c);
  }

  /** Who wants more, for at least as many subclients, gets no less. */
  lemma NoInversion(d: DemandMap, capacity: real, a: string, b: string)
    requires Counted(d) && 0.0 <= capacity && a in d && b in d
    requires d[a].wants <= d[b].wants && d[a].subclients <= d[b].subclients
    ensures TargetOf(ProportionalShare, d, capacity)(a) <= TargetOf(ProportionalShare, d, capacity)(b)
  {
    SharesOrdered(d, capacity, a, b);
    hide Sum, Target, Share, ShareOf, SumWants, TopUpOf, TopUpRatio, Between;
    TargetBetween(d, capacity, a);
    TargetBetween(d, capacity, b);
    if Overloaded(d, capacity) {
      var e := Share(d, capacity);
      TargetIsBetween(d, capacity, a);
      TargetIsBetween(d, capacity, b);
      BetweenOrdered(TopUpRatio(d, capacity), ShareOf(d, e)(a), d[a].wants, ShareOf(d, e)(b), d[b].wants);
    }
  }

  /** The target of any request, of a new client too, with e the capacity for each
      subclient that the store knows or that is new: the wants, if those stored fit
      or its own are within its share; and else its part of what the others leave
      is, to its excess, as all that they leave to all that they need. */
  lemma AnyTopUp(d: DemandMap, capacity: real, r: Request, e: real)
    requires Counted(d) && 0.0 <= capacity && 1 <= r.subclients
    requires e * (Count(d) + if r.client in d then 0.0 else r.subclients as real) == capacity
    ensures var seen := if r.client in d then d[r.client := Demand(r.wants, r.subclients)] else d;
            var mine, target := e * r.subclients as real, Target(ProportionalShare, d, capacity, r);
            if SumWants(d) <= capacity || r.wants <= mine then target == r.wants
            else
              && 0.0 < Sum(seen.Keys, OverOf(seen, e))
              && (target - mine) * Sum(seen.Keys, OverOf(seen, e)) ==
                 (r.wants - mine) * Sum(seen.Keys, ShortOf(seen, e))
  {
    hide Sum, SumWants, ShortOf, OverOf;
    var seen := if r.client in d then d[r.client := Demand(r.wants, r.subclients)] else d;
    ShareIsRate(d, capacity, r, e);
    assert seen == Seen(d, r) && seen.Keys == d.Keys;
    hide PropShare, Count, Seen;
    var mine := Entitled(e, r.subclients);
    assert mine == e * r.subclients as real;
    if PropTopsUp(d, capacity, r) {
      ExtraNeedPositive(d, capacity, r);
      var extra, need := Sum(seen.Keys, ShortOf(seen, e)), Sum(seen.Keys, OverOf(seen, e));
      assert PropTarget(d, capacity, r) == mine + (r.wants - mine) * (extra / need);
      hide PropTarget, Entitled;
      CrossTimes(r.wants - mine, extra, need);
    }
  }

  lemma ShareIsRate(d: DemandMap, capacity: real, r: Request, e: real)
    requires Counted(d) && 1 <= r.subclients
    requires e * (Count(d) + if r.client in d then 0.0 else r.subclients as real) == capacity
    ensures PropShare(d, capacity, r) == e
  {
    CountPositive(d);
    hide Count;
    var count := Count(d) + if r.client in d then 0.0 else r.subclients as real;
    assert PropShare(d, capacity, r) * count == e * count;
    assert (PropShare(d, capacity, r) - e) * count == 0.0;
  }

  lemma CrossTimes(x: real, extra: real, need: real)
    requires need != 0.0
    ensures x * (extra / need) * need == x * extra
  {
    var q := extra / need;
    assert q * need == extra;
  }

  /** Two clients that want 120 and 10 share 120 when a third one asks for 80: of
      the shares of 40 the second leaves 30, the first needs 80, and the target of
      the third is 55. */
  lemma NewClientIsToppedUp()
    ensures var d := map["a" := Demand(120.0, 1), "b" := Demand(10.0, 1)];
            Target(ProportionalShare, d, 120.0, Request("c", 0.0, 80.0, 1)) == 55.0
  {
    var d := map["a" := Demand(120.0, 1), "b" := Demand(10.0, 1)];
    var r := Request("c", 0.0, 80.0, 1);
    assert d.Keys == {"a", "b"};
    SumTwo("a", "b", WantsOf(d));
    SumTwo("a", "b", SubsOf(d));
    ShareAt(d, 40.0, "a");
    ShareAt(d, 40.0, "b");
    hide Sum, ShareOf;
    SumTwo("a", "b", ShortOf(d, 40.0));
    SumTwo("a", "b", OverOf(d, 40.0));
    assert Sum(d.Keys, ShortOf(d, 40.0)) == 30.0 && Sum(d.Keys, OverOf(d, 40.0)) == 80.0;
    AnyTopUp(d, 120.0, r, 40.0);
    hide Target;
  }

  lemma AskingOnceGets()
    ensures Grant(ProportionalShare, map["a" := Lease(9, 1, 20.0, 80.0, 1)], 100.0, Request("b", 0.0, 70.0, 1)) == 70.0
  {
    var m, r := map["a" := Lease(9, 1, 20.0, 80.0, 1)], Request("b", 0.0, 70.0, 1);
    var d := Demands(m);
    assert m.Keys == d.Keys == {"a"};
    SumOne("a", HasOf(m));
    SumOne("a", WantsOf(d));
    SumOne("a", SubsOf(d));
    hide Sum;
    AnyTopUp(d, 100.0, r, 50.0);
    GrantIsTarget(ProportionalShare, m, 100.0, r);
    hide Target, Grant;
  }

  lemma AskingAgainTarget(d: DemandMap)
    requires d == map["a" := Demand(80.0, 1), "b" := Demand(70.0, 1)]
    ensures Target(ProportionalShare, d, 100.0, Request("b", 0.0, 70.0, 1)) == 50.0
  {
    assert d.Keys == {"a", "b"} && d == d["b" := Demand(70.0, 1)];
    SumTwo("a", "b", WantsOf(d));
    SumTwo("a", "b", SubsOf(d));
    ShareAt(d, 50.0, "a");
    ShareAt(d, 50.0, "b");
    hide Sum, ShareOf;
    SumTwo("a", "b", ShortOf(d, 50.0));
    SumTwo("a", "b", OverOf(d, 50.0));
    assert Sum(d.Keys, ShortOf(d, 50.0)) == 0.0 && Sum(d.Keys, OverOf(d, 50.0)) == 50.0;
    hide ShortOf, OverOf;
    AnyTopUp(d, 100.0, Request("b", 0.0, 70.0, 1), 50.0);
    hide Target;
  }

  /** Of 100, one client holds 20 and wants 80; another asks for 70 and gets it, and
      asks again and gets 50, since now the stored wants include its own. */
  lemma AskingTwiceGetsLess()
    ensures var m, r := map["a" := Lease(9, 1, 20.0, 80.0, 1)], Request("b", 0.0, 70.0, 1);
            && Grant(ProportionalShare, m, 100.0, r) == 70.0
            && Grant(ProportionalShare, m["b" := Lease(9, 1, 70.0, 70.0, 1)], 100.0, r) == 50.0
  {
    AskingOnceGets();
    var n := map["a" := Lease(9, 1, 20.0, 80.0, 1)]["b" := Lease(9, 1, 70.0, 70.0, 1)];
    assert n.Keys == {"a", "b"};
    SumTwo("a", "b", HasOf(n));
    assert Unused(n, 100.0, "b") == 80.0;
    hide SumHas;
    assert Demands(n) == map["a" := Demand(80.0, 1), "b" := Demand(70.0, 1)];
    AskingAgainTarget(Demands(n));
    GrantIsTarget(ProportionalShare, n, 100.0, Request("b", 0.0, 70.0, 1));
    hide Target, Grant;
  }

  /** A topped-up client gets no more than it wants exactly when the demands
      that the traversal sees still cover the shares it computes with. A stored
      total that is stale can break this: see `StaleTotalOvershoots`. */
  lemma TopUpWithinWants(d: DemandMap, capacity: real, r: Request)
    requires Counted(d) && 1 <= r.subclients && 0.0 <= capacity && PropTopsUp(d, capacity, r)
    ensures PropTarget(d, capacity, r) <= r.wants <==>
            SumWants(Seen(d, r)) >= PropShare(d, capacity, r) * Count(Seen(d, r))
  {
    var e, seen := PropShare(d, capacity, r), Seen(d, r);
    assert seen.Keys == d.Keys;
    hide Sum, Entitled, PropShare, SumWants, Count, ShortOf, OverOf, Seen;
    ExtraNeedPositive(d, capacity, r);
    OverAtLeastExcess(seen, e);
    TopUp(Entitled(e, r.subclients), r.wants, Sum(d.Keys, ShortOf(seen, e)), Sum(d.Keys, OverOf(seen, e)));
  }

  /** Two clients share 100 and want 95 and 10. The first now asks for 60 only:
      the stored total still says overload, so it is topped up beyond that. */
  lemma StaleTotalOvershoots()
    ensures var d := map["a" := Demand(95.0, 1), "b" := Demand(10.0, 1)];
            PropTarget(d, 100.0, Request("a", 0.0, 60.0, 1)) > 60.0
  {
    var d := map["a" := Demand(95.0, 1), "b" := Demand(10.0, 1)];
    var r := Request("a", 0.0, 60.0, 1);
    assert d.Keys == {"a", "b"};
    SumTwo("a", "b", WantsOf(d));
    SumTwo("a", "b", SubsOf(d));
    var seen := d["a" := Demand(60.0, 1)];
    assert seen.Keys == {"a", "b"};
    SumTwo("a", "b", WantsOf(seen));
    SumTwo("a", "b", SubsOf(seen));
    assert PropTopsUp(d, 100.0, r);
    TopUpWithinWants(d, 100.0, r);
  }
}
