/** The allocation algorithms.

    The first half says what each algorithm would give a client if nothing
    were handed out yet (its target), as a function of the demands in the store
    alone. The second half is the algorithms themselves: they read the cached
    sums, range over the store in an arbitrary order and write one lease. */
module Algorithms {
  import opened Arithmetic
  import opened Sums
  import opened Store

  datatype Kind = NoAlgorithm | Static | ProportionalShare | FairShare

  /** What a client asks for, and what it claims to hold already. */
  datatype Request = Request(client: string, has: real, wants: real, subclients: int)

  /** Every client has at least one subclient: itself. */
  predicate Counted(d: DemandMap) {
    forall c | c in d :: 1 <= d[c].subclients
  }

  predicate Sane(d: DemandMap) {
    Counted(d) && forall c | c in d :: 0.0 <= d[c].wants
  }

  lemma CountPositive(d: DemandMap)
    requires Counted(d)
    ensures 0.0 <= Count(d)
    ensures d != map[] ==> 1.0 <= Count(d)
  {
    SumNonnegative(d.Keys, SubsOf(d));
    if d != map[] {
      var c :| c in d;
      SumBoundsMember(d.Keys, c, SubsOf(d));
    }
  }

  // ---- Weights that the traversals accumulate; e is the equal share of one subclient ----

  /** What one subclient is due, times the number of subclients. */
  function Entitled(e: real, subclients: int): real {
    e * subclients as real
  }

  lemma EntitledNonnegative(e: real, subclients: int)
    requires 0.0 <= e && 1 <= subclients
    ensures 0.0 <= Entitled(e, subclients)
  {
  }

  /** What a client may claim for all its subclients. */
  function ShareOf(d: DemandMap, e: real): string -> real {
    c => e * Subs(d, c)
  }

  lemma ShareAt(d: DemandMap, e: real, c: string)
    requires c in d
    ensures ShareOf(d, e)(c) == Entitled(e, d[c].subclients)
  {
  }

  /** What a client leaves unclaimed of its share. */
  function ShortOf(d: DemandMap, e: real): string -> real {
    c => if Want(d, c) < ShareOf(d, e)(c) then ShareOf(d, e)(c) - Want(d, c) else 0.0
  }

  /** What a client wants beyond its share. */
  function OverOf(d: DemandMap, e: real): string -> real {
    c => if Want(d, c) < ShareOf(d, e)(c) then 0.0 else Want(d, c) - ShareOf(d, e)(c)
  }

  /** The subclients of a client that competes for extra capacity. */
  function ContendersOf(d: DemandMap, e: real): string -> real {
    c => if Want(d, c) > ShareOf(d, e)(c) then Subs(d, c) else 0.0
  }

  /** What a competing client leaves unclaimed below the level. */
  function BelowOf(d: DemandMap, e: real, level: real): string -> real {
    c => if Want(d, c) > ShareOf(d, e)(c) && Want(d, c) < level then level - Want(d, c) else 0.0
  }

  /** The subclients of a competing client that wants more than the level. */
  function AboveOf(d: DemandMap, e: real, level: real): string -> real {
    c => if Want(d, c) > ShareOf(d, e)(c) && Want(d, c) > level then Subs(d, c) else 0.0
  }

  // ---- ProportionalShare ----

  /** The equal share of one subclient. The count is adjusted for a client that
      is new, but not for one whose number of subclients has changed. */
  ghost function PropShare(d: DemandMap, capacity: real, r: Request): real
    requires Counted(d) && 1 <= r.subclients
  {
    CountPositive(d);
    capacity / (Count(d) + if r.client in d then 0.0 else r.subclients as real)
  }

  /** The demands as the traversal sees them: the requesting client counts with
      the demand in its request, but only if the store knows it. */
  function Seen(d: DemandMap, r: Request): DemandMap {
    if r.client in d then d[r.client := Demand(r.wants, r.subclients)] else d
  }

  ghost predicate PropTopsUp(d: DemandMap, capacity: real, r: Request)
    requires Counted(d) && 1 <= r.subclients
  {
    SumWants(d) > capacity && r.wants > Entitled(PropShare(d, capacity, r), r.subclients)
  }

  /** The divisor of the top-up is zero; then there is no target. */
  ghost predicate DividesByZero(d: DemandMap, capacity: real, r: Request)
    requires Counted(d) && 1 <= r.subclients
  {
    PropTopsUp(d, capacity, r) && Sum(d.Keys, OverOf(Seen(d, r), PropShare(d, capacity, r))) == 0.0
  }

  ghost function PropTarget(d: DemandMap, capacity: real, r: Request): real
    requires Counted(d) && 1 <= r.subclients
  {
    if !PropTopsUp(d, capacity, r) then r.wants else
      var e := PropShare(d, capacity, r);
      var mine, need := Entitled(e, r.subclients), Sum(d.Keys, OverOf(Seen(d, r), e));
      if need == 0.0 then NOT_A_NUMBER
      else mine + (r.wants - mine) * (Sum(d.Keys, ShortOf(Seen(d, r), e)) / need)
  }

  /** Whenever the top-up is computed its divisor is positive, also for a new
      client, which the traversal does not visit, and for a client whose wants
      or subclients have just changed. */
  lemma ExtraNeedPositive(d: DemandMap, capacity: real, r: Request)
    requires Counted(d) && 1 <= r.subclients && 0.0 <= capacity
    requires PropTopsUp(d, capacity, r)
    ensures 0.0 < Sum(d.Keys, OverOf(Seen(d, r), PropShare(d, capacity, r)))
  {
    var e := PropShare(d, capacity, r);
    if r.client in d {
      ShareAt(Seen(d, r), e, r.client);
      OverOfKnownClient(d, r, e);
    } else {
      CountPositive(d);
      OverOfNewClient(d, capacity, r, e);
    }
  }

  /** The divisor is zero exactly for a new client when nobody else wants more
      than its share, which takes a negative capacity. */
  lemma DividesByZeroExactlyWhen(d: DemandMap, capacity: real, r: Request)
    requires Counted(d) && 1 <= r.subclients && PropTopsUp(d, capacity, r)
    ensures DividesByZero(d, capacity, r) <==>
            r.client !in d && forall c | c in d :: d[c].wants <= Entitled(PropShare(d, capacity, r), d[c].subclients)
    ensures DividesByZero(d, capacity, r) ==> capacity < 0.0
  {
    var e := PropShare(d, capacity, r);
    if 0.0 <= capacity {
      ExtraNeedPositive(d, capacity, r);
    }
    if r.client in d {
      ShareAt(Seen(d, r), e, r.client);
      OverOfKnownClient(d, r, e);
    } else {
      NoNeedExactlyWhen(d, e);
    }
  }

  lemma NoNeedExactlyWhen(d: DemandMap, e: real)
    ensures Sum(d.Keys, OverOf(d, e)) == 0.0 <==> forall c | c in d :: d[c].wants <= Entitled(e, d[c].subclients)
  {
    hide Sum, ShareOf, Entitled;
    var over := OverOf(d, e);
    forall c | c in d.Keys
      ensures 0.0 <= over(c) && (over(c) == 0.0 <==> d[c].wants <= Entitled(e, d[c].subclients))
    {
      ShareAt(d, e, c);
    }
    if Sum(d.Keys, over) == 0.0 {
      forall c | c in d.Keys
        ensures over(c) <= 0.0
      {
        SumBoundsMember(d.Keys, c, over);
      }
    } else if forall c | c in d.Keys :: over(c) == 0.0 {
      SumDominated(d.Keys, over, {}, over);
      SumNonnegative(d.Keys, over);
      SumEmpty(over);
    }
  }

  /** With a capacity of -1, a first client that wants nothing makes the server
      divide zero by zero. */
  lemma FirstClientOfNegativeCapacity()
    ensures var r := Request("a", 0.0, 0.0, 1);
            DividesByZero(map[], -1.0, r) && Grant(ProportionalShare, map[], -1.0, r) == NOT_A_NUMBER
  {
    var r := Request("a", 0.0, 0.0, 1);
    SumEmpty(WantsOf(map[]));
    SumEmpty(SubsOf(map[]));
    assert Demands(map[]) == map[];
    DividesByZeroExactlyWhen(map[], -1.0, r);
    SumEmpty(ShortOf(Seen(map[], r), PropShare(map[], -1.0, r)));
  }

  lemma OverOfKnownClient(d: DemandMap, r: Request, e: real)
    requires r.client in d && r.wants > ShareOf(Seen(d, r), e)(r.client)
    ensures 0.0 < Sum(d.Keys, OverOf(Seen(d, r), e))
  {
    hide Sum, ShareOf, Entitled;
    SumBoundsMember(d.Keys, r.client, OverOf(Seen(d, r), e));
  }

  lemma OverOfNewClient(d: DemandMap, capacity: real, r: Request, e: real)
    requires Counted(d) && 1 <= r.subclients && 0.0 <= capacity && 0.0 <= Count(d)
    requires r.client !in d && SumWants(d) > capacity && e == capacity / (Count(d) + r.subclients as real)
    ensures 0.0 < Sum(d.Keys, OverOf(Seen(d, r), e))
  {
    hide Sum, SumWants, Count, OverOf, ShortOf;
    OverAtLeastExcess(d, e);
    ShareOfFewer(capacity, Count(d), r.subclients as real, e);
  }

  /** The needs over the share sum to at least the total excess. */
  lemma OverAtLeastExcess(d: DemandMap, e: real)
    ensures SumWants(d) - e * Count(d) == Sum(d.Keys, OverOf(d, e)) - Sum(d.Keys, ShortOf(d, e))
    ensures 0.0 <= Sum(d.Keys, ShortOf(d, e))
    ensures 0.0 <= Sum(d.Keys, OverOf(d, e))
  {
    hide Sum;
    SumScale(d.Keys, e, SubsOf(d), ShareOf(d, e));
    hide ShareOf;
    var met: string -> real := c => Want(d, c) + ShortOf(d, e)(c);
    SumAdd(d.Keys, met, WantsOf(d), ShortOf(d, e));
    SumAdd(d.Keys, met, ShareOf(d, e), OverOf(d, e));
    SumNonnegative(d.Keys, ShortOf(d, e));
    SumNonnegative(d.Keys, OverOf(d, e));
  }

  lemma ShareOfFewer(capacity: real, count: real, more: real, e: real)
    requires 0.0 <= capacity && 0.0 <= count && 1.0 <= more
    requires e == capacity / (count + more)
    ensures e * count <= capacity
  {
    assert e * (count + more) == capacity;
    assert 0.0 <= e;
    assert 0.0 <= e * more;
  }

  // ---- FairShare ----

  /** The equal share of one subclient; the requesting client counts with the
      subclients in its request. */
  ghost function FairEqualShare(d: DemandMap, capacity: real, r: Request): real
    requires Counted(d) && 1 <= r.subclients
  {
    CountPositive(d - {r.client});
    capacity / (Count(d - {r.client}) + r.subclients as real)
  }

  /** First round: the share plus a part of what others leave unclaimed. */
  ghost function FairLevel(d: DemandMap, capacity: real, r: Request): real
    requires Counted(d) && 1 <= r.subclients
  {
    var others, e := d - {r.client}, FairEqualShare(d, capacity, r);
    SumNonnegative(others.Keys, ContendersOf(others, e));
    Entitled(e, r.subclients) +
    Entitled(Sum(others.Keys, ShortOf(others, e)) / (r.subclients as real + Sum(others.Keys, ContendersOf(others, e))),
             r.subclients)
  }

  /** Second round: a part of what competing clients leave unclaimed of the
      level, where everybody is measured by the requesting client's level. */
  ghost function FairSecondExtra(d: DemandMap, capacity: real, r: Request): real
    requires Counted(d) && 1 <= r.subclients
  {
    var others, e, level := d - {r.client}, FairEqualShare(d, capacity, r), FairLevel(d, capacity, r);
    SumNonnegative(others.Keys, AboveOf(others, e, level));
    Entitled(
      Sum(others.Keys, BelowOf(others, e, level))
      / (r.subclients as real + Sum(others.Keys, AboveOf(others, e, level))),
      r.subclients)
  }

  ghost function FairTarget(d: DemandMap, capacity: real, r: Request): real
    requires Counted(d) && 1 <= r.subclients
  {
    if r.wants <= Entitled(FairEqualShare(d, capacity, r), r.subclients) then r.wants
    else if r.wants < FairLevel(d, capacity, r) then r.wants
    else FairLevel(d, capacity, r) + FairSecondExtra(d, capacity, r)
  }

  // ---- Targets and grants ----

  predicate Shares(kind: Kind) {
    kind.ProportionalShare? || kind.FairShare?
  }

  ghost function Target(kind: Kind, d: DemandMap, capacity: real, r: Request): real
    requires Counted(d) && 1 <= r.subclients
  {
    match kind
    case NoAlgorithm => r.wants
    case Static => Min(capacity, r.wants)
    case ProportionalShare => PropTarget(d, capacity, r)
    case FairShare => FairTarget(d, capacity, r)
  }

  /** The capacity that nobody else holds. */
  ghost function Unused(m: Leases, capacity: real, client: string): real {
    capacity - SumHas(m) + Get(m, client).has
  }

  /** A share algorithm never gives more than the unused capacity. A division by
      zero yields infinity, which is cut to that, or else no number at all. */
  ghost function Grant(kind: Kind, m: Leases, capacity: real, r: Request): real
    requires Counted(Demands(m)) && 1 <= r.subclients
  {
    var target, unused := Target(kind, Demands(m), capacity, r), Unused(m, capacity, r.client);
    if kind.ProportionalShare? && DividesByZero(Demands(m), capacity, r) then
      if 0.0 < Sum(Demands(m).Keys, ShortOf(Seen(Demands(m), r), PropShare(Demands(m), capacity, r))) then unused
      else NOT_A_NUMBER
    else if Shares(kind) then Min(target, unused)
    else target
  }

  /** With a capacity that is not negative, nothing is divided by zero. */
  lemma GrantIsTarget(kind: Kind, m: Leases, capacity: real, r: Request)
    requires Counted(Demands(m)) && 1 <= r.subclients && Shares(kind) && (kind.FairShare? || 0.0 <= capacity)
    ensures Grant(kind, m, capacity, r) ==
            Min(Target(kind, Demands(m), capacity, r), Unused(m, capacity, r.client))
  {
    if kind.ProportionalShare? && PropTopsUp(Demands(m), capacity, r) {
      ExtraNeedPositive(Demands(m), capacity, r);
    }
    hide Target, SumHas, PropTopsUp, PropShare;
  }

  // ---- The algorithms ----

  /** Grants in full what is wanted. */
  method RunNoAlgorithm(store: LeaseStore, capacity: real, r: Request, length: int, interval: int, now: int)
    returns (lease: Lease)
    requires store.Valid()
    modifies store
    ensures store.Valid() && store.leases == old(store.leases)[r.client := lease]
    ensures lease == Lease(now + length, interval, r.wants, r.wants, r.subclients)
  {
    lease := store.Assign(r.client, length, interval, r.wants, r.wants, r.subclients, now);
  }

  /** Grants at most the configured capacity to each client. */
  method RunStatic(store: LeaseStore, capacity: real, r: Request, length: int, interval: int, now: int)
    returns (lease: Lease)
    requires store.Valid()
    modifies store
    ensures store.Valid() && store.leases == old(store.leases)[r.client := lease]
    ensures lease == Lease(now + length, interval, Min(capacity, r.wants), r.wants, r.subclients)
  {
    lease := store.Assign(r.client, length, interval, Min(capacity, r.wants), r.wants, r.subclients, now);
  }

  /** Grants what the client claims to have. */
  method RunLearn(store: LeaseStore, capacity: real, r: Request, length: int, interval: int, now: int)
    returns (lease: Lease)
    requires store.Valid()
    modifies store
    ensures store.Valid() && store.leases == old(store.leases)[r.client := lease]
    ensures lease == Lease(now + length, interval, r.has, r.wants, r.subclients)
  {
    lease := store.Assign(r.client, length, interval, r.has, r.wants, r.subclients, now);
  }

  /** Whatever order the traversal takes, the grant is the one function of the
      store and the request that `Grant` describes. */
  method RunProportionalShare(store: LeaseStore, capacity: real, r: Request, length: int, interval: int, now: int)
    returns (lease: Lease)
    requires store.Valid() && Counted(Demands(store.leases)) && 1 <= r.subclients
    modifies store
    ensures store.Valid() && store.leases == old(store.leases)[r.client := lease]
    ensures lease == Lease(now + length, interval, Grant(ProportionalShare, old(store.leases), capacity, r),
                           r.wants, r.subclients)
  {
    hide Sum;
    ghost var d := Demands(store.leases);
    CountPositive(d);
    var count, previous := store.count, Get(store.leases, r.client);
    if r.client !in store.leases {
      count := count + r.subclients;
    }
    var equalShare := capacity / count as real;
    assert equalShare == PropShare(d, capacity, r);
    hide SumHas, Count, PropShare, Entitled, ShareOf, ShortOf, OverOf;
    var equalSharePerClient := Entitled(equalShare, r.subclients);
    var unusedCapacity := capacity - store.sumHas + previous.has;
    if store.sumWants <= capacity || r.wants <= equalSharePerClient {
      lease := store.Assign(r.client, length, interval, Min(r.wants, unusedCapacity), r.wants, r.subclients, now);
      return;
    }
    var extraCapacity, extraNeed := TallyNeeds(store.leases, r, equalShare);
    var has;
    if extraNeed != 0.0 {
      var gets := equalSharePerClient + (r.wants - equalSharePerClient) * (extraCapacity / extraNeed);
      assert gets == PropTarget(d, capacity, r);
      has := Min(gets, unusedCapacity);
    } else {
      has := if 0.0 < extraCapacity then unusedCapacity else NOT_A_NUMBER;
    }
    hide PropTarget, SumWants;
    lease := store.Assign(r.client, length, interval, has, r.wants, r.subclients, now);
  }

  /** The traversal of ProportionalShare. */
  method TallyNeeds(leases: Leases, r: Request, equalShare: real) returns (extraCapacity: real, extraNeed: real)
    ensures extraCapacity == Sum(Demands(leases).Keys, ShortOf(Seen(Demands(leases), r), equalShare))
    ensures extraNeed == Sum(Demands(leases).Keys, OverOf(Seen(Demands(leases), r), equalShare))
  {
    hide Sum, ShareOf, Entitled;
    ghost var seen := Seen(Demands(leases), r);
    ghost var short, over := ShortOf(seen, equalShare), OverOf(seen, equalShare);
    extraCapacity, extraNeed := 0.0, 0.0;
    SumEmpty(short);
    SumEmpty(over);
    assert Demands(leases).Keys == leases.Keys;
    var todo := leases.Keys;
    while todo != {}
      invariant todo <= leases.Keys
      invariant extraCapacity + Sum(todo, short) == Sum(leases.Keys, short)
      invariant extraNeed + Sum(todo, over) == Sum(leases.Keys, over)
      decreases todo
    {
      var id :| id in todo;
      SumRemove(todo, id, short);
      SumRemove(todo, id, over);
      var wants, subclients := r.wants, r.subclients;
      if id != r.client {
        wants, subclients := leases[id].wants, leases[id].subclients;
      }
      var share := Entitled(equalShare, subclients);
      ShareAt(Seen(Demands(leases), r), equalShare, id);
      if wants < share {
        extraCapacity := extraCapacity + (share - wants);
      } else {
        extraNeed := extraNeed + (wants - share);
      }
      todo := todo - {id};
    }
  }

  method RunFairShare(store: LeaseStore, capacity: real, r: Request, length: int, interval: int, now: int)
    returns (lease: Lease)
    requires store.Valid() && Counted(Demands(store.leases)) && 1 <= r.subclients
    modifies store
    ensures store.Valid() && store.leases == old(store.leases)[r.client := lease]
    ensures lease == Lease(now + length, interval, Grant(FairShare, old(store.leases), capacity, r),
                           r.wants, r.subclients)
  {
    hide Sum;
    ghost var d := Demands(store.leases);
    ghost var others := Others(store.leases, r);
    CountPositive(others);
    DemandChange(d, r.client, Demand(r.wants, r.subclients));
    var previous := Get(store.leases, r.client);
    var count := store.count - previous.subclients + r.subclients;
    var available := capacity - store.sumHas + previous.has;
    var equalShare := capacity / count as real;
    assert equalShare == FairEqualShare(d, capacity, r);
    hide SumHas, Count, FairEqualShare, Entitled, ShareOf, ShortOf, ContendersOf, BelowOf, AboveOf;
    var deservedShare := Entitled(equalShare, r.subclients);
    if r.wants <= deservedShare {
      lease := store.Assign(r.client, length, interval, Min(r.wants, available), r.wants, r.subclients, now);
      return;
    }
    var extra, wantExtra, wantExtraClients := FirstRound(store.leases, r, equalShare);
    var deservedExtra := Entitled(extra / wantExtra as real, r.subclients);
    assert deservedShare + deservedExtra == FairLevel(d, capacity, r);
    if r.wants < deservedShare + deservedExtra {
      lease := store.Assign(r.client, length, interval, Min(r.wants, available), r.wants, r.subclients, now);
      return;
    }
    var extraExtra, wantExtraExtra :=
      SecondRound(store.leases, r, equalShare, deservedExtra + deservedShare, wantExtraClients);
    var deservedExtraExtra := Entitled(extraExtra / wantExtraExtra as real, r.subclients);
    assert deservedExtraExtra == FairSecondExtra(d, capacity, r);
    lease := store.Assign(r.client, length, interval,
                          Min(deservedShare + deservedExtra + deservedExtraExtra, available),
                          r.wants, r.subclients, now);
  }

  ghost function Others(leases: Leases, r: Request): DemandMap {
    Demands(leases) - {r.client}
  }

  lemma OthersAre(leases: Leases, r: Request)
    ensures Others(leases, r).Keys == leases.Keys - {r.client}
    ensures forall id | id in leases && id != r.client ::
              Others(leases, r)[id] == Demand(leases[id].wants, leases[id].subclients)
    ensures Counted(Demands(leases)) ==> forall id | id in leases :: 1 <= leases[id].subclients
  {
    assert forall id | id in leases :: Demands(leases)[id].subclients == leases[id].subclients;
  }

  /** The other clients that want more than their share. */
  ghost function Contending(leases: Leases, r: Request, equalShare: real): Leases {
    var share := ShareOf(Others(leases, r), equalShare);
    leases - {r.client} - set id | id in leases && leases[id].wants <= share(id)
  }

  /** The first traversal of FairShare. */
  method FirstRound(leases: Leases, r: Request, equalShare: real)
    returns (extra: real, wantExtra: int, wantExtraClients: Leases)
    requires Counted(Demands(leases)) && 1 <= r.subclients
    ensures extra == Sum(Others(leases, r).Keys, ShortOf(Others(leases, r), equalShare))
    ensures wantExtra as real ==
            r.subclients as real + Sum(Others(leases, r).Keys, ContendersOf(Others(leases, r), equalShare))
    ensures wantExtraClients == Contending(leases, r, equalShare)
    ensures 1 <= wantExtra
  {
    hide Sum, ShareOf, Entitled;
    ghost var others := Others(leases, r);
    ghost var short, contenders := ShortOf(others, equalShare), ContendersOf(others, equalShare);
    extra, wantExtra, wantExtraClients := 0.0, r.subclients, map[];
    var todo := leases.Keys;
    OthersAre(leases, r);
    ghost var contending := Contending(leases, r, equalShare);
    assert forall id | id in leases ::
             id in contending <==> id != r.client && leases[id].wants > ShareOf(others, equalShare)(id);
    hide Demands, Others, Contending, ShortOf, ContendersOf;
    SumEmpty(short);
    SumEmpty(contenders);
    while todo != {}
      invariant todo <= leases.Keys && 1 <= wantExtra
      invariant extra + Sum(todo - {r.client}, short) == Sum(others.Keys, short)
      invariant wantExtra as real + Sum(todo - {r.client}, contenders) ==
                r.subclients as real + Sum(others.Keys, contenders)
      invariant wantExtraClients.Keys <= leases.Keys
      invariant forall id | id in leases :: id in wantExtraClients <==> id in contending && id !in todo
      invariant forall id | id in wantExtraClients :: wantExtraClients[id] == leases[id]
      decreases todo
    {
      var id :| id in todo;
      var lease := leases[id];
      if id == r.client {
        assert todo - {id} - {r.client} == todo - {r.client};
      } else {
        SumRemove(todo - {r.client}, id, short);
        SumRemove(todo - {r.client}, id, contenders);
        assert todo - {r.client} - {id} == todo - {id} - {r.client};
        var deserved := Entitled(equalShare, lease.subclients);
        ShareAt(others, equalShare, id);
        FirstRoundWeights(others, equalShare, id);
        if lease.wants < deserved {
          extra := extra + (deserved - lease.wants);
        } else if lease.wants > deserved {
          wantExtra := wantExtra + lease.subclients;
          wantExtraClients := wantExtraClients[id := lease];
        }
      }
      todo := todo - {id};
    }
    assert todo - {r.client} == {};
    assert wantExtraClients == contending;
  }

  lemma FirstRoundWeights(d: DemandMap, e: real, c: string)
    requires c in d
    ensures ShortOf(d, e)(c) == if d[c].wants < ShareOf(d, e)(c) then ShareOf(d, e)(c) - d[c].wants else 0.0
    ensures ContendersOf(d, e)(c) == if d[c].wants > ShareOf(d, e)(c) then d[c].subclients as real else 0.0
  {
    hide ShareOf;
  }

  /** Clients that do not compete have no part in the second round. */
  lemma ContendingSuffice(leases: Leases, r: Request, e: real, level: real)
    requires Counted(Demands(leases))
    ensures var others, some := Others(leases, r), Contending(leases, r, e).Keys;
            && Sum(others.Keys, BelowOf(others, e, level)) == Sum(some, BelowOf(others, e, level))
            && Sum(others.Keys, AboveOf(others, e, level)) == Sum(some, AboveOf(others, e, level))
  {
    hide Sum, ShareOf, Entitled;
    var others, contending := Others(leases, r), Contending(leases, r, e);
    SumDominated(others.Keys, BelowOf(others, e, level), contending.Keys, BelowOf(others, e, level));
    SumDominated(contending.Keys, BelowOf(others, e, level), others.Keys, BelowOf(others, e, level));
    SumDominated(others.Keys, AboveOf(others, e, level), contending.Keys, AboveOf(others, e, level));
    SumDominated(contending.Keys, AboveOf(others, e, level), others.Keys, AboveOf(others, e, level));
  }

  /** The second traversal of FairShare, over the competing clients only. */
  method SecondRound(leases: Leases, r: Request, equalShare: real, level: real, wantExtraClients: Leases)
    returns (extraExtra: real, wantExtraExtra: int)
    requires Counted(Demands(leases)) && 1 <= r.subclients
    requires wantExtraClients == Contending(leases, r, equalShare)
    ensures extraExtra == Sum(Others(leases, r).Keys, BelowOf(Others(leases, r), equalShare, level))
    ensures wantExtraExtra as real ==
            r.subclients as real + Sum(Others(leases, r).Keys, AboveOf(Others(leases, r), equalShare, level))
    ensures 1 <= wantExtraExtra
  {
    hide Sum;
    ghost var others := Others(leases, r);
    ghost var below, above := BelowOf(others, equalShare, level), AboveOf(others, equalShare, level);
    wantExtraExtra, extraExtra := r.subclients, 0.0;
    var todo := wantExtraClients.Keys;
    ContendingSuffice(leases, r, equalShare, level);
    hide ShareOf, Entitled;
    SumEmpty(below);
    SumEmpty(above);
    while todo != {}
      invariant todo <= wantExtraClients.Keys && 1 <= wantExtraExtra
      invariant extraExtra + Sum(todo, below) == Sum(others.Keys, below)
      invariant wantExtraExtra as real + Sum(todo, above) ==
                r.subclients as real + Sum(others.Keys, above)
      decreases todo
    {
      var id :| id in todo;
      SumRemove(todo, id, below);
      SumRemove(todo, id, above);
      var lease := wantExtraClients[id];
      ShareAt(others, equalShare, id);
      assert 1 <= Demands(leases)[id].subclients;
      if lease.wants < level {
        extraExtra := extraExtra + (level - lease.wants);
      } else if lease.wants > level {
        wantExtraExtra := wantExtraExtra + lease.subclients;
      }
      todo := todo - {id};
    }
  }

  /** The algorithm that a template selects. */
  method RunAlgorithm(kind: Kind, store: LeaseStore, capacity: real, r: Request, length: int, interval: int, now: int)
    returns (lease: Lease)
    requires store.Valid() && Counted(Demands(store.leases)) && 1 <= r.subclients
    modifies store
    ensures store.Valid() && store.leases == old(store.leases)[r.client := lease]
    ensures lease == Lease(now + length, interval, Grant(kind, old(store.leases), capacity, r), r.wants, r.subclients)
  {
    UncappedGrant(kind, store.leases, capacity, r);
    hide Grant, Demands;
    match kind
    case NoAlgorithm => lease := RunNoAlgorithm(store, capacity, r, length, interval, now);
    case Static => lease := RunStatic(store, capacity, r, length, interval, now);
    case ProportionalShare => lease := RunProportionalShare(store, capacity, r, length, interval, now);
    case FairShare => lease := RunFairShare(store, capacity, r, length, interval, now);
  }

  lemma UncappedGrant(kind: Kind, m: Leases, capacity: real, r: Request)
    requires Counted(Demands(m)) && 1 <= r.subclients
    ensures kind == NoAlgorithm ==> Grant(kind, m, capacity, r) == r.wants
    ensures kind == Static ==> Grant(kind, m, capacity, r) == Min(capacity, r.wants)
  {
  }
}
