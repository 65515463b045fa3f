/** FairShare's second round when every client repeats its demand: what the
    targets of all clients add up to, exactly when they fit, and exactly when
    they cover all wants. */
module FairSecondRound {
  import opened Arithmetic
  import opened Sums
  import opened Store
  import opened Algorithms
  import opened Targets
  import opened FairShares

  // ---- One client's target, for any numbers of subclients ----

  /** What the first round entitles a client of n subclients to. */
  ghost function Level(d: DemandMap, capacity: real, n: int): real
    requires Counted(d) && d != map[]
  {
    Entitled(Share(d, capacity), n) + Entitled(ExtraRate(d, capacity), n)
  }

  /** The subclients of a competing client that wants the level exactly. */
  function TiedOf(d: DemandMap, e: real, level: real): string -> real {
    c => if Want(d, c) > ShareOf(d, e)(c) && Want(d, c) == level then Subs(d, c) else 0.0
  }

  ghost function Below(d: DemandMap, capacity: real, n: int): real
    requires Counted(d) && d != map[]
  {
    Sum(d.Keys, BelowOf(d, Share(d, capacity), Level(d, capacity, n)))
  }

  ghost function Above(d: DemandMap, capacity: real, n: int): real
    requires Counted(d) && d != map[]
  {
    Sum(d.Keys, AboveOf(d, Share(d, capacity), Level(d, capacity, n)))
  }

  ghost function Tied(d: DemandMap, capacity: real, n: int): real
    requires Counted(d) && d != map[]
  {
    Sum(d.Keys, TiedOf(d, Share(d, capacity), Level(d, capacity, n)))
  }

  lemma RoundTwoNonnegative(d: DemandMap, capacity: real, n: int)
    requires Counted(d) && d != map[]
    ensures 0.0 <= Below(d, capacity, n) && 0.0 <= Above(d, capacity, n) && 0.0 <= Tied(d, capacity, n)
  {
    var e, level := Share(d, capacity), Level(d, capacity, n);
    hide Sum, Share, ShareOf, Level;
    assert forall c | c in d.Keys :: 1.0 <= Subs(d, c);
    SumNonnegative(d.Keys, BelowOf(d, e, level));
    SumNonnegative(d.Keys, AboveOf(d, e, level));
    SumNonnegative(d.Keys, TiedOf(d, e, level));
  }

  /** What a subclient of a client above the level gets on top of it. */
  ghost function AboveRate(d: DemandMap, capacity: real, n: int): real
    requires Counted(d) && d != map[]
  {
    if Above(d, capacity, n) == 0.0 then 0.0 else Below(d, capacity, n) / Above(d, capacity, n)
  }

  /** A client that wants the level exactly is not counted by the others, but it
      counts itself. */
  ghost function TiedRate(d: DemandMap, capacity: real, n: int): real
    requires Counted(d) && d != map[] && 1 <= n
  {
    RoundTwoNonnegative(d, capacity, n);
    Below(d, capacity, n) / (n as real + Above(d, capacity, n))
  }

  /** The second traversal finds the same amounts from every client at or above
      a level, but for a tied client not counting as above. */
  lemma SecondTraversal(d: DemandMap, e: real, level: real, c: string)
    requires c in d && d[c].wants > ShareOf(d, e)(c) && d[c].wants >= level
    ensures Sum((d - {c}).Keys, BelowOf(d - {c}, e, level)) == Sum(d.Keys, BelowOf(d, e, level))
    ensures Sum((d - {c}).Keys, AboveOf(d - {c}, e, level)) + Subs(d, c) ==
            Sum(d.Keys, AboveOf(d, e, level)) + if d[c].wants == level then Subs(d, c) else 0.0
  {
    hide Sum, ShareOf;
    SameShares(d, c, e);
    SeenFrom(d, c, BelowOf(d, e, level), BelowOf(d - {c}, e, level));
    SeenFrom(d, c, AboveOf(d, e, level), AboveOf(d - {c}, e, level));
  }

  /** What a client of n subclients gets on top of the level. */
  ghost function Extra(d: DemandMap, capacity: real, n: int, tied: bool): real
    requires Counted(d) && d != map[] && 1 <= n
  {
    Entitled(if tied then TiedRate(d, capacity, n) else AboveRate(d, capacity, n), n)
  }

  /** The second extra of a client at or above the level. */
  lemma SecondExtraOf(d: DemandMap, capacity: real, c: string)
    requires Counted(d) && c in d && d[c].wants > ShareOf(d, Share(d, capacity))(c)
    requires d[c].wants >= Level(d, capacity, d[c].subclients)
    ensures FairLevel(d, capacity, Repeat(d, c)) == Level(d, capacity, d[c].subclients)
    ensures FairSecondExtra(d, capacity, Repeat(d, c)) ==
            Extra(d, capacity, d[c].subclients, d[c].wants == Level(d, capacity, d[c].subclients))
  {
    hide Sum, Share, FairEqualShare, Entitled, ExtraRate, FairLevel, ShareOf;
    LevelOfContender(d, capacity, c);
    OwnShare(d, capacity, c);
    hide Contenders;
    SecondTraversal(d, Share(d, capacity), Level(d, capacity, d[c].subclients), c);
    RoundTwoNonnegative(d, capacity, d[c].subclients);
    hide Level;
    var others, e, level := d - {c}, Share(d, capacity), Level(d, capacity, d[c].subclients);
    assert forall j | j in others.Keys :: 1.0 <= Subs(others, j);
    SumNonnegative(others.Keys, AboveOf(others, e, level));
  }

  /** A client's target: its wants up to its level, and from there on the level
      and a second extra that is the same for equally many subclients, save for
      clients tied at the level. */
  lemma TargetCases(d: DemandMap, capacity: real, c: string)
    requires Counted(d) && 0.0 <= capacity && c in d
    ensures var n, mine := d[c].subclients, ShareOf(d, Share(d, capacity))(c);
            var level := Level(d, capacity, n);
            && mine == Entitled(Share(d, capacity), n) <= level
            && TargetOf(FairShare, d, capacity)(c) ==
               if d[c].wants <= mine || d[c].wants < level then d[c].wants
               else level + Extra(d, capacity, n, d[c].wants == level)
  {
    hide Sum, Share, ExtraRate, FairLevel, FairSecondExtra, Entitled, ShareOf, FairEqualShare, Extra;
    var r := Repeat(d, c);
    OwnShare(d, capacity, c);
    ContendersNonnegative(d, capacity);
    EntitledNonnegative(ExtraRate(d, capacity), d[c].subclients);
    assert TargetOf(FairShare, d, capacity)(c) == FairTarget(d, capacity, r);
    if d[c].wants > ShareOf(d, Share(d, capacity))(c) {
      LevelOfContender(d, capacity, c);
      if d[c].wants >= Level(d, capacity, d[c].subclients) {
        SecondExtraOf(d, capacity, c);
      }
    }
  }

  /** The target of any request, of a new client too and of one that changes its
      demand: by the same cases, as if the store knew the demand already. */
  lemma AnyTargetCases(d: DemandMap, capacity: real, r: Request)
    requires Counted(d) && 0.0 <= capacity && 1 <= r.subclients
    ensures var x, n := d[r.client := Demand(r.wants, r.subclients)], r.subclients;
            && Counted(x) && r.client in x
            && var mine, level := Entitled(Share(x, capacity), n), Level(x, capacity, n);
               && mine <= level
               && Target(FairShare, d, capacity, r) ==
                  if r.wants <= mine || r.wants < level then r.wants
                  else level + Extra(x, capacity, n, r.wants == level)
  {
    var x := d[r.client := Demand(r.wants, r.subclients)];
    TargetSeesOthers(d, capacity, r);
    TargetCases(x, capacity, r.client);
    FairTargetIgnoresClaim(x, capacity, r, 0.0);
    assert r.(has := 0.0) == Repeat(x, r.client);
    hide FairTarget, Level, Extra, Share, Entitled, ShareOf;
  }

  // ---- What the targets of all clients add up to ----

  /** What a competing client leaves unclaimed below its own level. */
  ghost function OwnBelowOf(d: DemandMap, capacity: real): string -> real
    requires Counted(d)
  {
    c =>
      if c in d && d[c].wants > ShareOf(d, Share(d, capacity))(c) && d[c].wants < Level(d, capacity, d[c].subclients)
      then Level(d, capacity, d[c].subclients) - d[c].wants else 0.0
  }

  /** What a client at or above its own level gets in the second round. */
  ghost function SecondOf(d: DemandMap, capacity: real): string -> real
    requires Counted(d)
  {
    c =>
      if c in d && d[c].wants > ShareOf(d, Share(d, capacity))(c) && d[c].wants >= Level(d, capacity, d[c].subclients)
      then Extra(d, capacity, d[c].subclients, d[c].wants == Level(d, capacity, d[c].subclients)) else 0.0
  }

  /** What a client wants beyond its own level. */
  ghost function ExcessOf(d: DemandMap, capacity: real): string -> real
    requires Counted(d)
  {
    c =>
      if c in d && d[c].wants > Level(d, capacity, d[c].subclients)
      then d[c].wants - Level(d, capacity, d[c].subclients) else 0.0
  }

  /** What the first round leaves to nobody. */
  ghost function Unclaimed(d: DemandMap, capacity: real): real
    requires Counted(d) && d != map[]
  {
    if Contenders(d, capacity) == 0.0 then Sum(d.Keys, ShortOf(d, Share(d, capacity))) else 0.0
  }

  lemma TargetBalance(d: DemandMap, capacity: real, c: string)
    requires Counted(d) && 0.0 <= capacity && c in d
    ensures var e, T := Share(d, capacity), TargetOf(FairShare, d, capacity)(c);
            T + ShortOf(d, e)(c) + OwnBelowOf(d, capacity)(c) ==
            ShareOf(d, e)(c) + Times(ExtraRate(d, capacity), ContendersOf(d, e))(c) + SecondOf(d, capacity)(c)
  {
    hide Sum, Share, ExtraRate, Target, Entitled, ShareOf, Times, Extra;
    TargetCases(d, capacity, c);
    TimesContenders(d, Share(d, capacity), ExtraRate(d, capacity), c);
  }

  /** The targets add up to the capacity, less what nobody competes for, less
      what clients leave below their levels, plus what the second round gives. */
  lemma SumOfTargets(d: DemandMap, capacity: real)
    requires Counted(d) && 0.0 <= capacity && d != map[]
    ensures SumTargets(FairShare, d, capacity) ==
            capacity - Unclaimed(d, capacity)
            - Sum(d.Keys, OwnBelowOf(d, capacity)) + Sum(d.Keys, SecondOf(d, capacity))
  {
    hide Sum, Share, ExtraRate, ShareOf, Times, Target, Contenders, OwnBelowOf, SecondOf, ShortOf, ContendersOf;
    var e := Share(d, capacity);
    var T, contenders := TargetOf(FairShare, d, capacity), Times(ExtraRate(d, capacity), ContendersOf(d, e));
    forall c | c in d.Keys
      ensures T(c) + ShortOf(d, e)(c) + OwnBelowOf(d, capacity)(c) ==
              ShareOf(d, e)(c) + contenders(c) + SecondOf(d, capacity)(c)
    {
      TargetBalance(d, capacity, c);
    }
    SumBalance(d.Keys, T, ShortOf(d, e), OwnBelowOf(d, capacity),
               ShareOf(d, e), contenders, SecondOf(d, capacity));
    SharesUseCapacity(d, capacity);
    ExtraUsed(d, capacity);
  }

  /** The targets fit exactly when the second round gives no more than what is
      left below the levels or to nobody. */
  lemma TargetsFitExactlyWhen(d: DemandMap, capacity: real)
    requires Counted(d) && 0.0 <= capacity && d != map[]
    ensures SumTargets(FairShare, d, capacity) <= capacity <==>
            Sum(d.Keys, SecondOf(d, capacity)) <= Sum(d.Keys, OwnBelowOf(d, capacity)) + Unclaimed(d, capacity)
  {
    hide Sum, SumTargets, Unclaimed, SecondOf, OwnBelowOf;
    SumOfTargets(d, capacity);
  }

  // ---- What clients can use ----

  /** What a client can use of its target. */
  ghost function UsefulOf(d: DemandMap, capacity: real): string -> real
    requires Counted(d)
  {
    c => if c in d then Min(TargetOf(FairShare, d, capacity)(c), d[c].wants) else 0.0
  }

  /** What it can use of its part in the second round. */
  ghost function UsedOf(d: DemandMap, capacity: real): string -> real
    requires Counted(d)
  {
    c => Min(SecondOf(d, capacity)(c), ExcessOf(d, capacity)(c))
  }

  /** Up to its level a client can use all of its target and nothing more. */
  lemma UsefulCases(d: DemandMap, capacity: real, c: string)
    requires Counted(d) && 0.0 <= capacity && c in d
    ensures var level := Level(d, capacity, d[c].subclients);
            if d[c].wants <= ShareOf(d, Share(d, capacity))(c) || d[c].wants < level then
              UsefulOf(d, capacity)(c) == d[c].wants && UsedOf(d, capacity)(c) == 0.0
            else
              UsefulOf(d, capacity)(c) == level + UsedOf(d, capacity)(c)
  {
    hide Sum, Share, Target, Entitled, ShareOf, Extra, Level, Above, Below;
    TargetCases(d, capacity, c);
    ExtrasOrdered(d, capacity, d[c].subclients);
    SecondAndExcess(d, capacity, c);
    hide SecondOf, ExcessOf;
  }

  lemma SecondAndExcess(d: DemandMap, capacity: real, c: string)
    requires Counted(d) && c in d
    ensures var level := Level(d, capacity, d[c].subclients);
            && SecondOf(d, capacity)(c) ==
               (if d[c].wants <= ShareOf(d, Share(d, capacity))(c) || d[c].wants < level then 0.0
                else Extra(d, capacity, d[c].subclients, d[c].wants == level))
            && ExcessOf(d, capacity)(c) == if d[c].wants > level then d[c].wants - level else 0.0
  {
    hide Sum, Share, ShareOf, Extra, Level;
  }

  lemma UsefulBalance(d: DemandMap, capacity: real, c: string)
    requires Counted(d) && 0.0 <= capacity && c in d
    ensures var e := Share(d, capacity);
            UsefulOf(d, capacity)(c) + ShortOf(d, e)(c) + OwnBelowOf(d, capacity)(c) ==
            ShareOf(d, e)(c) + Times(ExtraRate(d, capacity), ContendersOf(d, e))(c) + UsedOf(d, capacity)(c)
  {
    UsefulCases(d, capacity, c);
    TargetCases(d, capacity, c);
    hide Sum, Share, ExtraRate, Target, Entitled, ShareOf, Times, UsefulOf, UsedOf;
    TimesContenders(d, Share(d, capacity), ExtraRate(d, capacity), c);
  }

  /** What clients can use of their targets fits exactly when what they can use in
      the second round is no more than what is left below the levels or to nobody. */
  lemma UsefulFitsExactlyWhen(d: DemandMap, capacity: real)
    requires Counted(d) && 0.0 <= capacity && d != map[]
    ensures Sum(d.Keys, UsefulOf(d, capacity)) <= capacity <==>
            Sum(d.Keys, UsedOf(d, capacity)) <= Sum(d.Keys, OwnBelowOf(d, capacity)) + Unclaimed(d, capacity)
  {
    hide Sum, Share, ExtraRate, ShareOf, Times, Contenders, OwnBelowOf, UsefulOf, UsedOf, ShortOf, ContendersOf;
    var e := Share(d, capacity);
    var contenders := Times(ExtraRate(d, capacity), ContendersOf(d, e));
    forall c | c in d.Keys
      ensures UsefulOf(d, capacity)(c) + ShortOf(d, e)(c) + OwnBelowOf(d, capacity)(c) ==
              ShareOf(d, e)(c) + contenders(c) + UsedOf(d, capacity)(c)
    {
      UsefulBalance(d, capacity, c);
    }
    SumBalance(d.Keys, UsefulOf(d, capacity), ShortOf(d, e), OwnBelowOf(d, capacity),
               ShareOf(d, e), contenders, UsedOf(d, capacity));
    SharesUseCapacity(d, capacity);
    ExtraUsed(d, capacity);
  }

  // ---- Who is satisfied ----

  lemma ExcessBalance(d: DemandMap, capacity: real, c: string)
    requires Counted(d) && 0.0 <= capacity && c in d
    ensures var e := Share(d, capacity);
            WantsOf(d)(c) + ShortOf(d, e)(c) + OwnBelowOf(d, capacity)(c) ==
            ShareOf(d, e)(c) + Times(ExtraRate(d, capacity), ContendersOf(d, e))(c) + ExcessOf(d, capacity)(c)
  {
    hide Sum, Share, ExtraRate, Target, Entitled, ShareOf, Times;
    TargetCases(d, capacity, c);
    TimesContenders(d, Share(d, capacity), ExtraRate(d, capacity), c);
  }

  /** What all clients want beyond their levels is what they want in all beyond
      the capacity, and what is left below the levels or to nobody. */
  lemma SumOfExcess(d: DemandMap, capacity: real)
    requires Counted(d) && 0.0 <= capacity && d != map[]
    ensures Sum(d.Keys, ExcessOf(d, capacity)) ==
            SumWants(d) - capacity + Unclaimed(d, capacity) + Sum(d.Keys, OwnBelowOf(d, capacity))
  {
    hide Sum, Share, ExtraRate, ShareOf, Times, Contenders, OwnBelowOf, ExcessOf, ShortOf, ContendersOf, WantsOf;
    var e := Share(d, capacity);
    var contenders := Times(ExtraRate(d, capacity), ContendersOf(d, e));
    forall c | c in d.Keys
      ensures WantsOf(d)(c) + ShortOf(d, e)(c) + OwnBelowOf(d, capacity)(c) ==
              ShareOf(d, e)(c) + contenders(c) + ExcessOf(d, capacity)(c)
    {
      ExcessBalance(d, capacity, c);
    }
    SumBalance(d.Keys, WantsOf(d), ShortOf(d, e), OwnBelowOf(d, capacity),
               ShareOf(d, e), contenders, ExcessOf(d, capacity));
    SharesUseCapacity(d, capacity);
    ExtraUsed(d, capacity);
  }

  ghost predicate AllSatisfied(d: DemandMap, capacity: real)
    requires Counted(d) && 0.0 <= capacity
  {
    forall c | c in d :: TargetOf(FairShare, d, capacity)(c) >= d[c].wants
  }

  /** Each client's part, by subclients, of what is left below its level covers
      what it wants beyond. */
  ghost predicate ExcessCovered(d: DemandMap, capacity: real, c: string)
    requires Counted(d) && c in d
  {
    var n := d[c].subclients;
    (d[c].wants - Level(d, capacity, n)) * Above(d, capacity, n) <= n as real * Below(d, capacity, n)
  }

  /** Everybody gets what it wants exactly when the part of every client above
      its level covers its excess. */
  lemma AllSatisfiedExactlyWhen(d: DemandMap, capacity: real)
    requires Counted(d) && 0.0 <= capacity && d != map[]
    ensures AllSatisfied(d, capacity) <==>
            forall c | c in d && d[c].wants > Level(d, capacity, d[c].subclients) :: ExcessCovered(d, capacity, c)
  {
    hide Sum, Share, Level, Target, ExcessCovered, Above, Below;
    forall c | c in d
      ensures TargetOf(FairShare, d, capacity)(c) >= d[c].wants <==>
              d[c].wants <= Level(d, capacity, d[c].subclients) || ExcessCovered(d, capacity, c)
    {
      SatisfiedExactlyWhen(d, capacity, c);
    }
  }

  lemma SatisfiedExactlyWhen(d: DemandMap, capacity: real, c: string)
    requires Counted(d) && 0.0 <= capacity && c in d
    ensures TargetOf(FairShare, d, capacity)(c) >= d[c].wants <==>
            d[c].wants <= Level(d, capacity, d[c].subclients) || ExcessCovered(d, capacity, c)
  {
    hide Sum, Share, Level, Entitled, ShareOf, AboveRate, TiedRate, Target, Above, Below;
    var n := d[c].subclients;
    TargetCases(d, capacity, c);
    ExtrasOrdered(d, capacity, n);
    if d[c].wants > Level(d, capacity, n) {
      SomebodyAbove(d, capacity, c);
      PartCovers(d[c].wants - Level(d, capacity, n), Below(d, capacity, n), Above(d, capacity, n), n);
      assert AboveRate(d, capacity, n) == Below(d, capacity, n) / Above(d, capacity, n) by {
        AboveRateOfSome(d, capacity, n);
      }
    }
  }

  lemma AboveRateOfSome(d: DemandMap, capacity: real, n: int)
    requires Counted(d) && d != map[] && 0.0 < Above(d, capacity, n)
    ensures AboveRate(d, capacity, n) == Below(d, capacity, n) / Above(d, capacity, n)
  {
    hide Above, Below;
  }

  lemma PartCovers(excess: real, below: real, above: real, n: int)
    requires 0.0 < above
    ensures excess <= Entitled(below / above, n) <==> excess * above <= n as real * below
  {
    var q := below / above;
    assert q * above == below;
    assert (q * n as real - excess) * above == n as real * below - excess * above;
  }

  lemma ExtrasOrdered(d: DemandMap, capacity: real, n: int)
    requires Counted(d) && d != map[] && 1 <= n
    ensures 0.0 <= Extra(d, capacity, n, true)
    ensures 0.0 <= Extra(d, capacity, n, false)
    ensures 0.0 < Above(d, capacity, n) ==> Extra(d, capacity, n, true) <= Extra(d, capacity, n, false)
  {
    hide Below, Above;
    RoundTwoNonnegative(d, capacity, n);
    var B, A := Below(d, capacity, n), Above(d, capacity, n);
    PartNonnegative(B, n as real + A, n);
    if 0.0 < A {
      PartNonnegative(B, A, n);
      SmallerDivisor(B, A, n as real);
      var t, a := TiedRate(d, capacity, n), AboveRate(d, capacity, n);
      hide TiedRate, AboveRate;
      assert 0.0 <= (a - t) * n as real;
    }
  }

  lemma SmallerDivisor(x: real, y: real, more: real)
    requires 0.0 <= x && 0.0 < y && 0.0 <= more
    ensures x / (more + y) <= x / y
  {
    var p, q := x / (more + y), x / y;
    assert p * (more + y) == x && q * y == x;
    assert (q - p) * y == p * more;
  }

  lemma SomebodyAbove(d: DemandMap, capacity: real, c: string)
    requires Counted(d) && c in d && d[c].wants > Level(d, capacity, d[c].subclients)
    ensures 0.0 < Above(d, capacity, d[c].subclients) && 0.0 < Contenders(d, capacity)
  {
    var n := d[c].subclients;
    var e, level := Share(d, capacity), Level(d, capacity, n);
    ContendersNonnegative(d, capacity);
    PartNonnegative(ExtraRate(d, capacity), 1.0, n);
    ShareAt(d, e, c);
    assert forall j | j in d.Keys :: 1.0 <= Subs(d, j);
    hide Sum, Share, ShareOf, ExtraRate, Entitled;
    SumBoundsMember(d.Keys, c, AboveOf(d, e, level));
    SumBoundsMember(d.Keys, c, ContendersOf(d, e));
  }

  /** Of two clients with equally many subclients, who wants more gets no less. */
  lemma NoInversion(d: DemandMap, capacity: real, a: string, b: string)
    requires Counted(d) && 0.0 <= capacity && a in d && b in d
    requires d[a].subclients == d[b].subclients && d[a].wants <= d[b].wants
    ensures TargetOf(FairShare, d, capacity)(a) <= TargetOf(FairShare, d, capacity)(b)
  {
    hide Sum, Share, Level, Entitled, ShareOf, Extra, Target, Above;
    TargetCases(d, capacity, a);
    TargetCases(d, capacity, b);
    ExtrasOrdered(d, capacity, d[a].subclients);
    if d[b].wants > Level(d, capacity, d[b].subclients) {
      SomebodyAbove(d, capacity, b);
    }
  }

  /** With different numbers of subclients the second round measures everybody by
      the requesting client's own level, and the targets need not fit even
      without ties: of 110, one client of 1 subclient has target 10 and one of
      10 subclients has target 150. */
  lemma MixedSubclientsOvershoot()
    ensures var d := map["a" := Demand(50.0, 1), "b" := Demand(200.0, 10)];
            SumTargets(FairShare, d, 110.0) == 160.0
  {
    var d := map["a" := Demand(50.0, 1), "b" := Demand(200.0, 10)];
    MixedTarget("a", "b", Demand(50.0, 1), Demand(200.0, 10), 10.0, 0.0);
    MixedTarget("b", "a", Demand(200.0, 10), Demand(50.0, 1), 100.0, 50.0);
    assert d == map["b" := Demand(200.0, 10), "a" := Demand(50.0, 1)];
    SumTwo("a", "b", TargetOf(FairShare, d, 110.0));
    assert d.Keys == {"a", "b"};
    hide Sum, FairTarget;
  }

  lemma MixedTarget(c: string, other: string, x: Demand, y: Demand, level: real, second: real)
    requires c != other && Entitled(10.0, x.subclients) == level && x.subclients + y.subclients == 11
    requires 1 <= x.subclients && 1 <= y.subclients
    requires x.wants > level && y.wants > Entitled(10.0, y.subclients) && y.wants != level
    requires second == if y.wants < level then level - y.wants else 0.0
    ensures FairTarget(map[c := x, other := y], 110.0, Request(c, 0.0, x.wants, x.subclients)) == level + second
  {
    var d, r, others := map[c := x, other := y], Request(c, 0.0, x.wants, x.subclients), map[other := y];
    assert d - {c} == others && others.Keys == {other};
    SumOne(other, SubsOf(others));
    hide Sum;
    assert FairEqualShare(d, 110.0, r) == 10.0;
    ShareAt(others, 10.0, other);
    SumOne(other, ShortOf(others, 10.0));
    SumOne(other, ContendersOf(others, 10.0));
    hide FairEqualShare, ShareOf;
    assert FairLevel(d, 110.0, r) == level;
    SumOne(other, BelowOf(others, 10.0, level));
    SumOne(other, AboveOf(others, 10.0, level));
    hide FairLevel;
    assert FairSecondExtra(d, 110.0, r) == second;
  }
}
