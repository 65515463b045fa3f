/** FairShare when every client has equally many subclients and repeats its
    demand: all clients then have the same level, and what goes wrong is ties at
    it. */
module FairUniform {
  import opened Arithmetic
  import opened Sums
  import opened Store
  import opened Algorithms
  import opened Targets
  import opened FairShares
  import opened FairSecondRound

  lemma SecondRoundSums(d: DemandMap, capacity: real, n: int)
    requires Uniform(d, n) && d != map[]
    ensures Sum(d.Keys, OwnBelowOf(d, capacity)) == Below(d, capacity, n)
    ensures Sum(d.Keys, SecondOf(d, capacity)) ==
            (if Above(d, capacity, n) == 0.0 then 0.0 else Below(d, capacity, n))
            + TiedRate(d, capacity, n) * Tied(d, capacity, n)
  {
    hide Sum, Share, ShareOf, AboveRate, TiedRate, Times, Level;
    var e, level := Share(d, capacity), Level(d, capacity, n);
    var above := Times(AboveRate(d, capacity, n), AboveOf(d, e, level));
    var tied := Times(TiedRate(d, capacity, n), TiedOf(d, e, level));
    forall c | c in d.Keys
      ensures OwnBelowOf(d, capacity)(c) == BelowOf(d, e, level)(c)
      ensures SecondOf(d, capacity)(c) == above(c) + tied(c)
    {
      SecondRoundAt(d, capacity, n, c);
    }
    SumSame(d.Keys, OwnBelowOf(d, capacity), BelowOf(d, e, level));
    SumAdd(d.Keys, SecondOf(d, capacity), above, tied);
    SumTimes(d.Keys, TiedRate(d, capacity, n), TiedOf(d, e, level));
    RoundTwoUsed(d, capacity, n);
  }

  lemma SecondRoundAt(d: DemandMap, capacity: real, n: int, c: string)
    requires Uniform(d, n) && c in d
    ensures var e, level := Share(d, capacity), Level(d, capacity, n);
            && OwnBelowOf(d, capacity)(c) == BelowOf(d, e, level)(c)
            && SecondOf(d, capacity)(c) ==
               Times(AboveRate(d, capacity, n), AboveOf(d, e, level))(c)
               + Times(TiedRate(d, capacity, n), TiedOf(d, e, level))(c)
  {
    hide Sum, Share, Level, ShareOf, AboveRate, TiedRate, Times, Entitled;
    var e, level := Share(d, capacity), Level(d, capacity, n);
    TimesAboveOrTied(d, e, level, AboveRate(d, capacity, n), TiedRate(d, capacity, n), c);
  }

  lemma TimesAboveOrTied(d: DemandMap, e: real, level: real, a: real, t: real, c: string)
    requires c in d
    ensures Times(a, AboveOf(d, e, level))(c) ==
            if d[c].wants > ShareOf(d, e)(c) && d[c].wants > level then Entitled(a, d[c].subclients) else 0.0
    ensures Times(t, TiedOf(d, e, level))(c) ==
            if d[c].wants > ShareOf(d, e)(c) && d[c].wants == level then Entitled(t, d[c].subclients) else 0.0
  {
    hide ShareOf;
  }

  lemma RoundTwoUsed(d: DemandMap, capacity: real, n: int)
    requires Counted(d) && d != map[]
    ensures Sum(d.Keys, Times(AboveRate(d, capacity, n), AboveOf(d, Share(d, capacity), Level(d, capacity, n)))) ==
            if Above(d, capacity, n) == 0.0 then 0.0 else Below(d, capacity, n)
  {
    hide Sum, Share, Level, Times, Below;
    SumTimes(d.Keys, AboveRate(d, capacity, n), AboveOf(d, Share(d, capacity), Level(d, capacity, n)));
  }

  /** What the targets of all clients add up to. The last summand is what ties
      get beyond what the second round has to give. */
  lemma SumWithTies(d: DemandMap, capacity: real, n: int)
    requires Uniform(d, n) && 0.0 <= capacity && d != map[]
    ensures SumTargets(FairShare, d, capacity) ==
            capacity - Unclaimed(d, capacity)
            - (if Above(d, capacity, n) == 0.0 then Below(d, capacity, n) else 0.0)
            + TiedRate(d, capacity, n) * Tied(d, capacity, n)
  {
    hide Sum, Unclaimed, Above, Below, Tied, TiedRate, SumTargets, SecondOf, OwnBelowOf;
    SumOfTargets(d, capacity);
    SecondRoundSums(d, capacity, n);
  }

  lemma NoContendersNoneBelow(d: DemandMap, capacity: real, n: int)
    requires Counted(d) && d != map[]
    ensures Contenders(d, capacity) == 0.0 ==> Below(d, capacity, n) == 0.0
  {
    hide Sum, Share, Level, ShareOf;
    var e, level := Share(d, capacity), Level(d, capacity, n);
    if Contenders(d, capacity) == 0.0 {
      assert forall c | c in d.Keys :: 1.0 <= Subs(d, c);
      forall c | c in d.Keys
        ensures BelowOf(d, e, level)(c) <= 0.0
      {
        SumBoundsMember(d.Keys, c, ContendersOf(d, e));
      }
      SumDominated(d.Keys, BelowOf(d, e, level), {}, BelowOf(d, e, level));
      SumEmpty(BelowOf(d, e, level));
      RoundTwoNonnegative(d, capacity, n);
    }
  }

  /** The targets fit exactly when no capacity goes to ties twice: nothing is
      left below the level, or nobody is tied at it, or a single client is tied
      at it and nobody is above. */
  lemma FitExactlyWhenTiesTakeNothing(d: DemandMap, capacity: real, n: int)
    requires Uniform(d, n) && 0.0 <= capacity && d != map[]
    ensures SumTargets(FairShare, d, capacity) <= capacity <==>
            || Below(d, capacity, n) == 0.0
            || Tied(d, capacity, n) == 0.0
            || (Above(d, capacity, n) == 0.0 && Tied(d, capacity, n) <= n as real)
  {
    hide Sum, Level, Share, Below, Above, Tied, SumTargets, Contenders;
    SumWithTies(d, capacity, n);
    RoundTwoNonnegative(d, capacity, n);
    NoContendersNoneBelow(d, capacity, n);
    var B, A, T, t := Below(d, capacity, n), Above(d, capacity, n), Tied(d, capacity, n), TiedRate(d, capacity, n);
    ShortNonnegative(d, Share(d, capacity));
    TieArithmetic(B, A, T, n as real, t);
    hide TiedRate;
  }

  lemma ShortNonnegative(d: DemandMap, e: real)
    ensures 0.0 <= Sum(d.Keys, ShortOf(d, e))
  {
    hide ShareOf;
    SumNonnegative(d.Keys, ShortOf(d, e));
  }

  lemma TieArithmetic(B: real, A: real, T: real, n: real, t: real)
    requires 0.0 <= B && 0.0 <= A && 0.0 <= T && 1.0 <= n && t == B / (n + A)
    ensures 0.0 <= t * T
    ensures t * T <= (if A == 0.0 then B else 0.0) <==> B == 0.0 || T == 0.0 || (A == 0.0 && T <= n)
    ensures B == 0.0 || T == 0.0 ==> t * T == 0.0
  {
    assert t * (n + A) == B;
    assert 0.0 <= t;
    if B != 0.0 {
      assert 0.0 < t;
      if A == 0.0 {
        assert t * n == B;
        assert t * T <= t * n <==> T <= n by { assert t * n - t * T == t * (n - T); }
      } else if T != 0.0 {
        assert 0.0 < t * T;
      }
    }
  }

  /** Unless a client wants the level exactly, the targets fit; and they use up
      the capacity if some client wants more than the level. */
  lemma TargetsFitWithoutTies(d: DemandMap, capacity: real, n: int)
    requires Uniform(d, n) && 0.0 <= capacity && d != map[]
    requires forall c | c in d :: d[c].wants != Level(d, capacity, n)
    ensures SumTargets(FairShare, d, capacity) <= capacity
    ensures (exists c :: c in d && d[c].wants > Level(d, capacity, n)) ==>
            SumTargets(FairShare, d, capacity) == capacity
  {
    var level := Level(d, capacity, n);
    NoTies(d, capacity, n);
    hide Sum, Share, Below, Above, Tied, SumTargets, Contenders, ExtraRate, Level;
    FitExactlyWhenTiesTakeNothing(d, capacity, n);
    if c :| c in d && d[c].wants > level {
      SomebodyAbove(d, capacity, c);
      SumWithTies(d, capacity, n);
      hide TiedRate;
    }
  }

  lemma NoTies(d: DemandMap, capacity: real, n: int)
    requires Counted(d) && d != map[] && forall c | c in d :: d[c].wants != Level(d, capacity, n)
    ensures Tied(d, capacity, n) == 0.0
  {
    hide Sum, Share, ShareOf, Level;
    var e, level := Share(d, capacity), Level(d, capacity, n);
    forall c | c in d.Keys
      ensures TiedOf(d, e, level)(c) == 0.0
    {
      assert Want(d, c) == d[c].wants != level;
    }
    SumDominated(d.Keys, TiedOf(d, e, level), {}, TiedOf(d, e, level));
    SumEmpty(TiedOf(d, e, level));
    RoundTwoNonnegative(d, capacity, n);
  }

  /** With ties too, what clients can use of their targets fits: a tied client
      wants nothing beyond the level. */
  lemma UsefulTargetsFit(d: DemandMap, capacity: real, n: int)
    requires Uniform(d, n) && 0.0 <= capacity && d != map[]
    ensures Sum(d.Keys, UsefulOf(d, capacity)) <= capacity
  {
    hide Sum, Share, ShareOf, Times, AboveRate, UsedOf, Level, Unclaimed, OwnBelowOf, SecondOf;
    var above := Times(AboveRate(d, capacity, n), AboveOf(d, Share(d, capacity), Level(d, capacity, n)));
    forall c | c in d.Keys
      ensures UsedOf(d, capacity)(c) <= above(c)
    {
      UsedOfAbove(d, capacity, n, c);
    }
    SumMono(d.Keys, UsedOf(d, capacity), above);
    RoundTwoUsed(d, capacity, n);
    RoundTwoNonnegative(d, capacity, n);
    SecondRoundSums(d, capacity, n);
    UnclaimedNonnegative(d, capacity);
    UsefulFitsExactlyWhen(d, capacity);
  }

  lemma UnclaimedNonnegative(d: DemandMap, capacity: real)
    requires Counted(d) && d != map[]
    ensures 0.0 <= Unclaimed(d, capacity)
  {
    hide Sum, Share, Contenders;
    ShortNonnegative(d, Share(d, capacity));
  }

  lemma UsedOfAbove(d: DemandMap, capacity: real, n: int, c: string)
    requires Uniform(d, n) && c in d
    ensures UsedOf(d, capacity)(c) <=
            Times(AboveRate(d, capacity, n), AboveOf(d, Share(d, capacity), Level(d, capacity, n)))(c)
  {
    LevelAtLeastShare(d, capacity, c);
    hide Sum, Share, Level, ShareOf, AboveRate, TiedRate, Times, Entitled;
    SecondRoundAt(d, capacity, n, c);
    TimesAboveOrTied(d, Share(d, capacity), Level(d, capacity, n), AboveRate(d, capacity, n),
                     TiedRate(d, capacity, n), c);
  }

  /** Covered one by one, the clients' excess is covered in all. */
  lemma ExcessFitsBelow(d: DemandMap, capacity: real, n: int)
    requires Uniform(d, n) && 0.0 <= capacity && d != map[]
    requires forall c | c in d && d[c].wants > Level(d, capacity, n) :: ExcessCovered(d, capacity, c)
    ensures Sum(d.Keys, ExcessOf(d, capacity)) <= Below(d, capacity, n)
  {
    hide Sum, Share, Level, ShareOf, Times, Below, Above, ExcessOf, Contenders;
    var A, B := Above(d, capacity, n), Below(d, capacity, n);
    var excess, above := ExcessOf(d, capacity), AboveOf(d, Share(d, capacity), Level(d, capacity, n));
    RoundTwoNonnegative(d, capacity, n);
    forall c | c in d.Keys
      ensures Times(A, excess)(c) <= Times(B, above)(c)
      ensures A == 0.0 ==> excess(c) <= 0.0
    {
      ExcessAt(d, capacity, n, c);
    }
    SumTimes(d.Keys, A, excess);
    SumTimes(d.Keys, B, above);
    SumMono(d.Keys, Times(A, excess), Times(B, above));
    assert Sum(d.Keys, above) == A by { AboveIsSum(d, capacity, n); }
    if A == 0.0 {
      SumDominated(d.Keys, excess, {}, excess);
      SumEmpty(excess);
    } else {
      Cancel(A, Sum(d.Keys, excess), B);
    }
  }

  lemma AboveIsSum(d: DemandMap, capacity: real, n: int)
    requires Counted(d) && d != map[]
    ensures Sum(d.Keys, AboveOf(d, Share(d, capacity), Level(d, capacity, n))) == Above(d, capacity, n)
  {
  }

  lemma Cancel(a: real, x: real, y: real)
    requires 0.0 < a && a * x <= y * a
    ensures x <= y
  {
    assert 0.0 <= a * (y - x);
  }

  /** One client's excess and its subclients above the level. */
  lemma ExcessAt(d: DemandMap, capacity: real, n: int, c: string)
    requires Uniform(d, n) && c in d
    requires d[c].wants > Level(d, capacity, n) ==> ExcessCovered(d, capacity, c)
    ensures Times(Above(d, capacity, n), ExcessOf(d, capacity))(c) <=
            Times(Below(d, capacity, n), AboveOf(d, Share(d, capacity), Level(d, capacity, n)))(c)
    ensures Above(d, capacity, n) == 0.0 ==> ExcessOf(d, capacity)(c) <= 0.0
  {
    ExcessCases(d, capacity, n, c);
    hide Sum, Share, Level, ShareOf, Below, Above, ExcessOf, AboveOf;
    if d[c].wants > Level(d, capacity, n) {
      SomebodyAbove(d, capacity, c);
    }
  }

  lemma ExcessCases(d: DemandMap, capacity: real, n: int, c: string)
    requires Uniform(d, n) && c in d
    ensures ExcessOf(d, capacity)(c) ==
            if d[c].wants > Level(d, capacity, n) then d[c].wants - Level(d, capacity, n) else 0.0
    ensures AboveOf(d, Share(d, capacity), Level(d, capacity, n))(c) ==
            if d[c].wants > Level(d, capacity, n) then n as real else 0.0
  {
    LevelAtLeastShare(d, capacity, c);
    hide Sum, Share, Level, ShareOf;
  }

  lemma LevelAtLeastShare(d: DemandMap, capacity: real, c: string)
    requires Counted(d) && c in d
    ensures ShareOf(d, Share(d, capacity))(c) <= Level(d, capacity, d[c].subclients)
  {
    ContendersNonnegative(d, capacity);
    EntitledNonnegative(ExtraRate(d, capacity), d[c].subclients);
    ShareAt(d, Share(d, capacity), c);
    hide Sum, Share, ShareOf, ExtraRate, Entitled;
  }

  ghost predicate EqualAbove(d: DemandMap, capacity: real, n: int)
    requires Counted(d) && d != map[]
  {
    forall a, b | a in d && b in d && d[a].wants > Level(d, capacity, n) && d[b].wants > Level(d, capacity, n) ::
      d[a].wants == d[b].wants
  }

  lemma EqualExcessAt(d: DemandMap, capacity: real, n: int, c: string, j: string)
    requires Uniform(d, n) && c in d && d[c].wants > Level(d, capacity, n) && EqualAbove(d, capacity, n) && j in d
    ensures Times(n as real, ExcessOf(d, capacity))(j) ==
            Times(d[c].wants - Level(d, capacity, n), AboveOf(d, Share(d, capacity), Level(d, capacity, n)))(j)
  {
    hide Sum, Share, Level, ExcessOf, Times, AboveOf;
    ExcessCases(d, capacity, n, j);
    TimesAt(n as real, ExcessOf(d, capacity), j);
    TimesAt(d[c].wants - Level(d, capacity, n), AboveOf(d, Share(d, capacity), Level(d, capacity, n)), j);
  }

  /** If all clients above the level want the same, they have the same excess. */
  lemma EqualExcessInAll(d: DemandMap, capacity: real, n: int, c: string)
    requires Uniform(d, n) && c in d && d[c].wants > Level(d, capacity, n) && EqualAbove(d, capacity, n)
    ensures n as real * Sum(d.Keys, ExcessOf(d, capacity)) ==
            (d[c].wants - Level(d, capacity, n)) * Above(d, capacity, n)
  {
    hide Sum, Share, Level, Above, ExcessOf, Times, AboveOf, EqualAbove;
    var x, k := d[c].wants - Level(d, capacity, n), n as real;
    var excess, above := ExcessOf(d, capacity), AboveOf(d, Share(d, capacity), Level(d, capacity, n));
    AboveIsSum(d, capacity, n);
    forall j | j in d.Keys
      ensures Times(k, excess)(j) == Times(x, above)(j)
    {
      EqualExcessAt(d, capacity, n, c, j);
    }
    SumSame(d.Keys, Times(k, excess), Times(x, above));
    SumTimes(d.Keys, k, excess);
    SumTimes(d.Keys, x, above);
  }

  /** Clients above the level that want the same share what is left below it. */
  lemma EqualExcessIsCovered(d: DemandMap, capacity: real, n: int, c: string)
    requires Uniform(d, n) && 0.0 <= capacity && c in d && d[c].wants > Level(d, capacity, n)
    requires EqualAbove(d, capacity, n) && Sum(d.Keys, ExcessOf(d, capacity)) <= Below(d, capacity, n)
    ensures ExcessCovered(d, capacity, c)
  {
    hide Sum, Level, Below, Above, ExcessOf, EqualAbove;
    EqualExcessInAll(d, capacity, n, c);
    TimesOrdered(n as real, Sum(d.Keys, ExcessOf(d, capacity)), Below(d, capacity, n));
  }

  lemma TimesAt(a: real, f: string -> real, c: string)
    ensures Times(a, f)(c) == a * f(c)
  {
  }

  /** If everybody gets what it wants, that is no more than the capacity; and it
      takes no more than that if all clients above the level want the same. */
  lemma UnderloadSatisfies(d: DemandMap, capacity: real, n: int)
    requires Uniform(d, n) && 0.0 <= capacity && d != map[]
    ensures AllSatisfied(d, capacity) ==> SumWants(d) <= capacity
    ensures EqualAbove(d, capacity, n) && SumWants(d) <= capacity ==> AllSatisfied(d, capacity)
  {
    hide Sum, Share, Level, Below, Above, ExcessOf, SumWants, AllSatisfied, ExcessCovered, Contenders, EqualAbove;
    hide OwnBelowOf, SecondOf;
    SumOfExcess(d, capacity);
    SecondRoundSums(d, capacity, n);
    AllSatisfiedExactlyWhen(d, capacity);
    ShortNonnegative(d, Share(d, capacity));
    if AllSatisfied(d, capacity) {
      ExcessFitsBelow(d, capacity, n);
    }
    if EqualAbove(d, capacity, n) && SumWants(d) <= capacity {
      forall c | c in d && d[c].wants > Level(d, capacity, n)
        ensures ExcessCovered(d, capacity, c)
      {
        SomebodyAbove(d, capacity, c);
        EqualExcessIsCovered(d, capacity, n, c);
      }
    }
  }

  /** Clients that want 10, 110, 135 and 144 of 400 leave 1 over, yet the last
      one's target is 140. */
  lemma UnderloadMayLeaveWanting()
    ensures var d := map["a" := Demand(10.0, 1), "b" := Demand(110.0, 1),
                         "c" := Demand(135.0, 1), "d" := Demand(144.0, 1)];
            SumWants(d) == 399.0 && FairTarget(d, 400.0, Repeat(d, "d")) == 140.0
  {
    var others := map["a" := Demand(10.0, 1), "b" := Demand(110.0, 1), "c" := Demand(135.0, 1)];
    var d := others["d" := Demand(144.0, 1)];
    assert d - {"d"} == others && others.Keys == {"a", "b", "c"};
    SumThree("a", "b", "c", WantsOf(others));
    SumThree("a", "b", "c", SubsOf(others));
    hide Sum;
    DemandChange(others, "d", Demand(144.0, 1));
    assert FairEqualShare(d, 400.0, Repeat(d, "d")) == 100.0;
    hide FairEqualShare, SumWants, Count;
    UnderloadTraversals(others);
    assert FairLevel(d, 400.0, Repeat(d, "d")) == 130.0;
    hide FairLevel;
    assert FairSecondExtra(d, 400.0, Repeat(d, "d")) == 10.0;
  }

  lemma UnderloadTraversals(others: DemandMap)
    requires others == map["a" := Demand(10.0, 1), "b" := Demand(110.0, 1), "c" := Demand(135.0, 1)]
    ensures Sum(others.Keys, ShortOf(others, 100.0)) == 90.0
    ensures Sum(others.Keys, ContendersOf(others, 100.0)) == 2.0
    ensures Sum(others.Keys, BelowOf(others, 100.0, 130.0)) == 20.0
    ensures Sum(others.Keys, AboveOf(others, 100.0, 130.0)) == 1.0
  {
    assert others.Keys == {"a", "b", "c"};
    ShareAt(others, 100.0, "a");
    ShareAt(others, 100.0, "b");
    ShareAt(others, 100.0, "c");
    hide Sum, ShareOf;
    SumThree("a", "b", "c", ShortOf(others, 100.0));
    SumThree("a", "b", "c", ContendersOf(others, 100.0));
    SumThree("a", "b", "c", BelowOf(others, 100.0, 130.0));
    SumThree("a", "b", "c", AboveOf(others, 100.0, 130.0));
  }

  /** Of clients that want 10, 110, 130 and 200 of 400, one is tied at the level
      of 130 and one is above: the targets exceed the capacity by 10. */
  lemma TiesOvershoot()
    ensures var d := map["a" := Demand(10.0, 1), "b" := Demand(110.0, 1),
                         "c" := Demand(130.0, 1), "d" := Demand(200.0, 1)];
            && Uniform(d, 1) && "a" in d && Level(d, 400.0, 1) == 130.0
            && Below(d, 400.0, 1) == 20.0 && Above(d, 400.0, 1) == 1.0 && Tied(d, 400.0, 1) == 1.0
            && SumTargets(FairShare, d, 400.0) == 410.0
  {
    var d := map["a" := Demand(10.0, 1), "b" := Demand(110.0, 1), "c" := Demand(130.0, 1), "d" := Demand(200.0, 1)];
    assert "a" in d;
    TieTraversals(d);
    hide Sum, ShortOf, ContendersOf, BelowOf, AboveOf, TiedOf;
    assert Share(d, 400.0) == 100.0;
    hide Share, Count;
    assert ExtraRate(d, 400.0) == 30.0;
    hide ExtraRate;
    SumWithTies(d, 400.0, 1);
    hide SumTargets;
  }

  lemma TieTraversals(d: DemandMap)
    requires d == map["a" := Demand(10.0, 1), "b" := Demand(110.0, 1), "c" := Demand(130.0, 1), "d" := Demand(200.0, 1)]
    ensures Count(d) == 4.0
    ensures Sum(d.Keys, ShortOf(d, 100.0)) == 90.0
    ensures Sum(d.Keys, ContendersOf(d, 100.0)) == 3.0
    ensures Sum(d.Keys, BelowOf(d, 100.0, 130.0)) == 20.0
    ensures Sum(d.Keys, AboveOf(d, 100.0, 130.0)) == 1.0
    ensures Sum(d.Keys, TiedOf(d, 100.0, 130.0)) == 1.0
  {
    assert d.Keys == {"a", "b", "c", "d"};
    ShareAt(d, 100.0, "a");
    ShareAt(d, 100.0, "b");
    ShareAt(d, 100.0, "c");
    ShareAt(d, 100.0, "d");
    hide Sum, ShareOf;
    SumFour("a", "b", "c", "d", SubsOf(d));
    SumFour("a", "b", "c", "d", ShortOf(d, 100.0));
    SumFour("a", "b", "c", "d", ContendersOf(d, 100.0));
    SumFour("a", "b", "c", "d", BelowOf(d, 100.0, 130.0));
    SumFour("a", "b", "c", "d", AboveOf(d, 100.0, 130.0));
    SumFour("a", "b", "c", "d", TiedOf(d, 100.0, 130.0));
  }
}
