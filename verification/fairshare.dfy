/** What FairShare divides up when every client repeats its demand. */
module FairShares {
  import opened Arithmetic
  import opened Sums
  import opened Store
  import opened Algorithms
  import opened Targets

  // ---- The first round, for any numbers of subclients ----

  /** Subclients that compete for what is left unclaimed. */
  ghost function Contenders(d: DemandMap, capacity: real): real
    requires Counted(d) && d != map[]
  {
    Sum(d.Keys, ContendersOf(d, Share(d, capacity)))
  }

  /** What every competing subclient gets on top of its share. */
  ghost function ExtraRate(d: DemandMap, capacity: real): real
    requires Counted(d) && d != map[]
  {
    if Contenders(d, capacity) == 0.0 then 0.0
    else Sum(d.Keys, ShortOf(d, Share(d, capacity))) / Contenders(d, capacity)
  }

  function Times(a: real, f: string -> real): string -> real {
    c => a * f(c)
  }

  lemma SumTimes(s: set<string>, a: real, f: string -> real)
    ensures Sum(s, Times(a, f)) == a * Sum(s, f)
  {
    SumScale(s, a, f, Times(a, f));
  }

  /** The sum over all clients, seen from one of them. */
  lemma SeenFrom(d: DemandMap, c: string, f: string -> real, g: string -> real)
    requires c in d && forall j | j in d && j != c :: f(j) == g(j)
    ensures Sum(d.Keys, f) == f(c) + Sum((d - {c}).Keys, g)
  {
    hide Sum;
    SumRemove(d.Keys, c, f);
    assert (d - {c}).Keys == d.Keys - {c};
    SumSame(d.Keys - {c}, f, g);
  }

  lemma ContendersNonnegative(d: DemandMap, capacity: real)
    requires Counted(d) && d != map[]
    ensures 0.0 <= Contenders(d, capacity) && 0.0 <= ExtraRate(d, capacity)
    ensures 0.0 <= Sum(d.Keys, ShortOf(d, Share(d, capacity)))
    ensures ExtraRate(d, capacity) * Contenders(d, capacity) ==
            if Contenders(d, capacity) == 0.0 then 0.0 else Sum(d.Keys, ShortOf(d, Share(d, capacity)))
  {
    hide Share, ShareOf;
    assert forall c | c in d.Keys :: 1.0 <= Subs(d, c);
    SumNonnegative(d.Keys, ContendersOf(d, Share(d, capacity)));
    SumNonnegative(d.Keys, ShortOf(d, Share(d, capacity)));
    hide Sum;
    if Contenders(d, capacity) != 0.0 {
      PartNonnegative(Sum(d.Keys, ShortOf(d, Share(d, capacity))), Contenders(d, capacity), 1);
    }
  }

  /** The rate hands out what was left unclaimed, if anybody competes for it. */
  lemma ExtraUsed(d: DemandMap, capacity: real)
    requires Counted(d) && d != map[]
    ensures Sum(d.Keys, Times(ExtraRate(d, capacity), ContendersOf(d, Share(d, capacity)))) ==
            if Contenders(d, capacity) == 0.0 then 0.0 else Sum(d.Keys, ShortOf(d, Share(d, capacity)))
  {
    hide Sum, Share, ExtraRate, Times;
    ContendersNonnegative(d, capacity);
    SumTimes(d.Keys, ExtraRate(d, capacity), ContendersOf(d, Share(d, capacity)));
  }

  lemma OwnShare(d: DemandMap, capacity: real, c: string)
    requires Counted(d) && c in d
    ensures FairEqualShare(d, capacity, Repeat(d, c)) == Share(d, capacity)
    ensures ShareOf(d, Share(d, capacity))(c) == Entitled(Share(d, capacity), d[c].subclients)
  {
    DemandChange(d, c, d[c]);
    ShareAt(d, Share(d, capacity), c);
    hide Sum, Entitled, ShareOf;
  }

  /** Leaving one client out does not change what the others may claim. */
  lemma SameShares(d: DemandMap, c: string, e: real)
    ensures forall j | j in d && j != c :: ShareOf(d, e)(j) == ShareOf(d - {c}, e)(j)
  {
    forall j | j in d && j != c
      ensures ShareOf(d, e)(j) == ShareOf(d - {c}, e)(j)
    {
      ShareAt(d, e, j);
      ShareAt(d - {c}, e, j);
    }
  }

  /** A competing client's level is the same rate for each of its subclients,
      from whichever client it is computed. */
  lemma LevelOfContender(d: DemandMap, capacity: real, c: string)
    requires Counted(d) && c in d && d[c].wants > ShareOf(d, Share(d, capacity))(c)
    ensures Contenders(d, capacity) > 0.0
    ensures FairLevel(d, capacity, Repeat(d, c)) ==
            Entitled(Share(d, capacity), d[c].subclients) + Entitled(ExtraRate(d, capacity), d[c].subclients)
  {
    var e, others := Share(d, capacity), d - {c};
    OwnShare(d, capacity, c);
    hide Sum, Share, FairEqualShare, Entitled;
    SameShares(d, c, e);
    hide ShareOf;
    SeenFrom(d, c, ShortOf(d, e), ShortOf(others, e));
    SeenFrom(d, c, ContendersOf(d, e), ContendersOf(others, e));
    ContendersNonnegative(d, capacity);
    SumNonnegative(others.Keys, ContendersOf(others, e));
  }

  /** Whatever the numbers of subclients, what the first round admits fits. */
  lemma FirstRoundFits(d: DemandMap, capacity: real)
    requires Counted(d)
    ensures Sum(d.Keys, FirstRoundOf(d, capacity)) <= capacity || d == map[]
  {
    if d != map[] {
      hide Sum, Share, ExtraRate, ShareOf, ShortOf, Times, ContendersOf, FirstRoundOf;
      var e, a := Share(d, capacity), ExtraRate(d, capacity);
      var first, short := FirstRoundOf(d, capacity), ShortOf(d, e);
      var contenders := Times(a, ContendersOf(d, e));
      SharesUseCapacity(d, capacity);
      ContendersNonnegative(d, capacity);
      ExtraUsed(d, capacity);
      var both: string -> real := c => first(c) + short(c);
      var limit: string -> real := c => ShareOf(d, e)(c) + contenders(c);
      forall c | c in d.Keys
        ensures both(c) <= limit(c)
      {
        FirstRoundAt(d, capacity, c);
      }
      SumAdd(d.Keys, both, first, short);
      SumAdd(d.Keys, limit, ShareOf(d, e), contenders);
      SumMono(d.Keys, both, limit);
    }
  }

  /** The smaller of a client's wants and its first-round level. */
  ghost function FirstRoundOf(d: DemandMap, capacity: real): string -> real
    requires Counted(d)
  {
    c => if c in d then Min(d[c].wants, FairLevel(d, capacity, Repeat(d, c))) else 0.0
  }

  lemma FirstRoundAt(d: DemandMap, capacity: real, c: string)
    requires Counted(d) && c in d
    ensures FirstRoundOf(d, capacity)(c) + ShortOf(d, Share(d, capacity))(c) <=
            ShareOf(d, Share(d, capacity))(c) + Times(ExtraRate(d, capacity), ContendersOf(d, Share(d, capacity)))(c)
  {
    var e, a := Share(d, capacity), ExtraRate(d, capacity);
    hide Sum, Share, ExtraRate, FairLevel, Entitled, ShareOf, Times, FairEqualShare;
    OwnShare(d, capacity, c);
    TimesContenders(d, e, a, c);
    if d[c].wants > ShareOf(d, e)(c) {
      LevelOfContender(d, capacity, c);
    }
  }

  lemma TimesContenders(d: DemandMap, e: real, a: real, c: string)
    requires c in d
    ensures Times(a, ContendersOf(d, e))(c) ==
            if d[c].wants > ShareOf(d, e)(c) then Entitled(a, d[c].subclients) else 0.0
  {
    hide ShareOf;
  }
}
