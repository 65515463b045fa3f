/** A request for many resources, whose decisions are made concurrently: what
    any order of them does, and exactly when the order does not matter. */
module Schedules {
  import opened Arithmetic
  import opened Sums
  import opened Store
  import opened Algorithms
  import opened Targets
  import opened Resources

  datatype ClientRequest = ClientRequest(client: string, resID: string, has: real, wants: real, subclients: int)

  datatype Item = Item(id: string, lease: Lease)

  type View = map<string, State>

  function AsRequest(q: ClientRequest): Request {
    Request(q.client, q.has, q.wants, q.subclients)
  }

  ghost predicate ValidView(rs: View) {
    forall id | id in rs :: ValidState(rs[id])
  }

  ghost predicate Servable(rs: View, qs: seq<ClientRequest>) {
    ValidView(rs) && forall q | q in qs :: q.resID in rs && 1 <= q.subclients
  }

  ghost function Served(rs: View, q: ClientRequest, now: int): (t: View)
    requires Servable(rs, [q])
  {
    assert q in [q];
    rs[q.resID := Decided(rs[q.resID], AsRequest(q), now)]
  }

  ghost function ItemOf(rs: View, q: ClientRequest, now: int): Item
    requires Servable(rs, [q])
  {
    assert q in [q];
    Item(q.resID, Decision(rs[q.resID], AsRequest(q), now))
  }

  lemma ServedIsServable(rs: View, q: ClientRequest, qs: seq<ClientRequest>, now: int)
    requires Servable(rs, [q]) && Servable(rs, qs)
    ensures Servable(Served(rs, q, now), qs) && Served(rs, q, now).Keys == rs.Keys
  {
    hide ValidState, Decided;
    assert q in [q];
    DecidedIsValid(rs[q.resID], AsRequest(q), now);
  }

  /** Deciding the requests one after the other, in the given order: the state
      in the end and the leases granted. */
  ghost function ServedAll(rs: View, qs: seq<ClientRequest>, now: int): (result: (View, seq<Item>))
    requires Servable(rs, qs)
    ensures Servable(result.0, qs) && result.0.Keys == rs.Keys
  {
    if qs == [] then (rs, []) else
      var q, rest := qs[|qs| - 1], qs[..|qs| - 1];
      assert q in qs && forall p | p in rest :: p in qs;
      var (mid, items) := ServedAll(rs, rest, now);
      assert Servable(mid, [q]) && Servable(mid, qs);
      ServedIsServable(mid, q, qs, now);
      (Served(mid, q, now), items + [ItemOf(mid, q, now)])
  }

  lemma ServedAllNext(rs: View, order: seq<ClientRequest>, q: ClientRequest, now: int)
    requires Servable(rs, order) && Servable(rs, [q])
    ensures Servable(rs, order + [q]) && Servable(ServedAll(rs, order, now).0, [q])
    ensures ServedAll(rs, order + [q], now) ==
            var (mid, items) := ServedAll(rs, order, now);
            (Served(mid, q, now), items + [ItemOf(mid, q, now)])
  {
    hide ValidState, Served, ItemOf;
    assert q in [q];
    assert forall p | p in order + [q] :: p in order || p == q;
    assert (order + [q])[..|order|] == order;
  }

  // ---- When two requests do not interfere ----

  /** The client claims what counts: in the learning mode also what it has. */
  predicate SameEffect(learning: bool, x: ClientRequest, y: ClientRequest) {
    && x.client == y.client && x.wants == y.wants && x.subclients == y.subclients
    && (learning ==> x.has == y.has)
  }

  predicate Independent(rs: View, x: ClientRequest, y: ClientRequest, now: int) {
    x.resID == y.resID && x.resID in rs ==> SameEffect(Learning(rs[x.resID], now), x, y)
  }

  /** No two requests for one resource disagree. */
  predicate OrderFree(rs: View, qs: seq<ClientRequest>, now: int) {
    forall x, y | x in qs && y in qs :: Independent(rs, x, y, now)
  }

  lemma SameDecision(s: State, x: ClientRequest, y: ClientRequest, now: int)
    requires ValidState(s) && 1 <= x.subclients && SameEffect(Learning(s, now), x, y)
    ensures Decision(s, AsRequest(x), now) == Decision(s, AsRequest(y), now)
    ensures Decided(s, AsRequest(x), now) == Decided(s, AsRequest(y), now)
  {
    var m := Cleaned(s.leases, now);
    CleanedIsCounted(s.leases, now);
    if !Learning(s, now) {
      GrantIgnoresClaim(s.template.algorithm.kind, m, CapacityAt(s, now), AsRequest(x), y.has);
    }
    assert AsRequest(x).(has := y.has) == AsRequest(y);
    hide Grant, Seconds, ValidState, Cleaned;
  }

  lemma GrantIgnoresClaim(kind: Kind, m: Leases, capacity: real, r: Request, has: real)
    requires Counted(Demands(m)) && 1 <= r.subclients
    ensures Grant(kind, m, capacity, r) == Grant(kind, m, capacity, r.(has := has))
  {
    TargetIgnoresClaim(kind, Demands(m), capacity, r, has);
    hide Target;
  }

  // ---- Any order of independent requests ----

  /** In t, the learning modes and templates are as in rs. */
  predicate SameModes(rs: View, t: View) {
    && t.Keys == rs.Keys
    && forall id | id in rs ::
         t[id].learningModeEndTime == rs[id].learningModeEndTime && t[id].template == rs[id].template
  }

  lemma {:induction false} ServedKeepsModes(rs: View, qs: seq<ClientRequest>, now: int)
    requires Servable(rs, qs)
    ensures SameModes(rs, ServedAll(rs, qs, now).0)
    decreases |qs|
  {
    hide Decision, ValidState;
    if qs != [] {
      var q, rest := qs[|qs| - 1], qs[..|qs| - 1];
      assert q in qs && forall p | p in rest :: p in qs;
      ServedKeepsModes(rs, rest, now);
    }
  }

  /** Two independent requests may be served in either order. */
  lemma Swap(rs: View, x: ClientRequest, y: ClientRequest, now: int)
    requires Servable(rs, [x]) && Servable(rs, [y]) && Independent(rs, x, y, now)
    ensures Servable(Served(rs, x, now), [y]) && Servable(Served(rs, y, now), [x])
    ensures Served(Served(rs, x, now), y, now) == Served(Served(rs, y, now), x, now)
    ensures multiset{ItemOf(rs, x, now), ItemOf(Served(rs, x, now), y, now)} ==
            multiset{ItemOf(rs, y, now), ItemOf(Served(rs, y, now), x, now)}
  {
    assert x in [x] && y in [y];
    ServedIsServable(rs, x, [y], now);
    ServedIsServable(rs, y, [x], now);
    if x.resID == y.resID {
      var s := rs[x.resID];
      SameDecision(s, x, y, now);
      DecidedIsValid(s, AsRequest(x), now);
      SameDecision(Decided(s, AsRequest(x), now), x, y, now);
    }
    hide Decision, Decided, ValidState;
  }

  /** Both orders end in the same state with the same items. */
  ghost predicate SameOutcome(rs: View, p: seq<ClientRequest>, q: seq<ClientRequest>, now: int) {
    && Servable(rs, p) && Servable(rs, q)
    && ServedAll(rs, p, now).0 == ServedAll(rs, q, now).0
    && multiset(ServedAll(rs, p, now).1) == multiset(ServedAll(rs, q, now).1)
  }

  lemma TakeOut<T>(p: seq<T>, n: nat)
    requires n < |p|
    ensures multiset(p[..n] + p[n + 1..]) + multiset{p[n]} == multiset(p)
    ensures forall x | x in p[..n] + p[n + 1..] :: x in p
  {
    assert p == p[..n] + [p[n]] + p[n + 1..];
  }

  /** One request more, after the same outcome. */
  lemma OutcomeNext(rs: View, p: seq<ClientRequest>, q: seq<ClientRequest>, x: ClientRequest, now: int)
    requires SameOutcome(rs, p, q, now) && Servable(rs, [x])
    ensures SameOutcome(rs, p + [x], q + [x], now)
  {
    ServedAllNext(rs, p, x, now);
    ServedAllNext(rs, q, x, now);
    hide Servable, ServedAll, Served, ItemOf;
  }

  lemma ServedTwo(rs: View, p: seq<ClientRequest>, x: ClientRequest, y: ClientRequest, now: int)
    requires Servable(rs, p) && Servable(rs, [x]) && Servable(rs, [y])
    ensures var mid := ServedAll(rs, p, now).0;
            && Servable(mid, [x]) && Servable(Served(mid, x, now), [y]) && Servable(rs, p + [x] + [y])
            && ServedAll(rs, p + [x] + [y], now).0 == Served(Served(mid, x, now), y, now)
            && multiset(ServedAll(rs, p + [x] + [y], now).1) ==
               multiset(ServedAll(rs, p, now).1)
               + multiset{ItemOf(mid, x, now), ItemOf(Served(mid, x, now), y, now)}
  {
    ServedAllNext(rs, p, x, now);
    ServedAllNext(rs, p + [x], y, now);
    hide Servable, ServedAll, Served, ItemOf;
  }

  lemma SwapLast(rs: View, p: seq<ClientRequest>, x: ClientRequest, y: ClientRequest, now: int)
    requires Servable(rs, p) && Servable(rs, [x]) && Servable(rs, [y]) && Independent(rs, x, y, now)
    ensures SameOutcome(rs, p + [x] + [y], p + [y] + [x], now)
  {
    ServedTwo(rs, p, x, y, now);
    ServedTwo(rs, p, y, x, now);
    ServedKeepsModes(rs, p, now);
    hide ServedAll, Served, ItemOf, Servable;
    Swap(ServedAll(rs, p, now).0, x, y, now);
  }

  lemma OutcomesChain(rs: View, p: seq<ClientRequest>, q: seq<ClientRequest>, r: seq<ClientRequest>, now: int)
    requires SameOutcome(rs, p, q, now) && SameOutcome(rs, q, r, now)
    ensures SameOutcome(rs, p, r, now)
  {
    hide Servable, ServedAll;
  }

  lemma {:induction false} MoveToEnd(rs: View, p: seq<ClientRequest>, n: nat, now: int)
    requires n < |p| && Servable(rs, p) && OrderFree(rs, p, now)
    ensures SameOutcome(rs, p, p[..n] + p[n + 1..] + [p[n]], now)
    decreases |p|
  {
    hide ServedAll, ValidState, Independent;
    var init, last, x := p[..|p| - 1], p[|p| - 1], p[n];
    assert p == init + [last];
    if n == |p| - 1 {
      assert p[..n] + p[n + 1..] + [x] == p;
    } else {
      var rest := init[..n] + init[n + 1..];
      assert p[..n] + p[n + 1..] == rest + [last];
      TakeOut(init, n);
      assert last in p && x in p && forall q | q in init :: q in p;
      MoveToEnd(rs, init, n, now);
      assert Servable(rs, [x]) && Servable(rs, [last]) && Servable(rs, rest);
      hide Servable, SameOutcome;
      OutcomeNext(rs, init, rest + [x], last, now);
      SwapLast(rs, rest, x, last, now);
      OutcomesChain(rs, p, rest + [x] + [last], rest + [last] + [x], now);
    }
  }

  predicate IsOrderOf(order: seq<ClientRequest>, qs: seq<ClientRequest>) {
    multiset(order) == multiset(qs)
  }

  lemma OrderHasSame(p: seq<ClientRequest>, q: seq<ClientRequest>)
    requires IsOrderOf(p, q)
    ensures |p| == |q| && forall x :: x in p <==> x in q
  {
    assert forall x :: x in p <==> x in multiset(p);
    assert |p| == |multiset(p)| && |q| == |multiset(q)|;
  }

  lemma CancelOne<T>(a: multiset<T>, b: multiset<T>, x: T)
    requires a + multiset{x} == b + multiset{x}
    ensures a == b
  {
    assert a == a + multiset{x} - multiset{x};
    assert b == b + multiset{x} - multiset{x};
  }

  lemma FewerRequests(rs: View, p: seq<ClientRequest>, q: seq<ClientRequest>, now: int)
    requires Servable(rs, p) && OrderFree(rs, p, now) && forall x | x in q :: x in p
    ensures Servable(rs, q) && OrderFree(rs, q, now)
  {
    hide ValidState, Independent;
  }

  lemma FindLast(p: seq<ClientRequest>, init: seq<ClientRequest>, x: ClientRequest) returns (n: nat)
    requires IsOrderOf(p, init + [x])
    ensures n < |p| && p[n] == x && IsOrderOf(p[..n] + p[n + 1..], init)
    ensures forall y | y in p[..n] + p[n + 1..] :: y in p
  {
    OrderHasSame(p, init + [x]);
    assert x in init + [x];
    n :| 0 <= n < |p| && p[n] == x;
    TakeOut(p, n);
    CancelOne(multiset(p[..n] + p[n + 1..]), multiset(init), x);
  }

  /** If no two requests for one resource disagree, neither the final state nor
      the leases granted depend on the order. */
  lemma {:induction false} OrderDoesNotMatter(rs: View, p: seq<ClientRequest>, q: seq<ClientRequest>, now: int)
    requires IsOrderOf(p, q) && Servable(rs, p) && OrderFree(rs, p, now)
    ensures SameOutcome(rs, p, q, now)
    decreases |p|
  {
    OrderHasSame(p, q);
    if q != [] {
      hide ServedAll, ValidState, Independent, IsOrderOf;
      var init, x := q[..|q| - 1], q[|q| - 1];
      assert q == init + [x] && x in q;
      var n := FindLast(p, init, x);
      var rest := p[..n] + p[n + 1..];
      FewerRequests(rs, p, [x], now);
      FewerRequests(rs, p, rest, now);
      hide OrderFree, SameOutcome, Servable;
      MoveToEnd(rs, p, n, now);
      OrderDoesNotMatter(rs, rest, init, now);
      OutcomeNext(rs, rest, init, x, now);
      OutcomesChain(rs, p, rest + [x], q, now);
    }
  }

  // ---- Requests that disagree ----

  /** All requests are of one client, as in every message. */
  predicate OneClient(qs: seq<ClientRequest>) {
    forall x, y | x in qs && y in qs :: x.client == y.client
  }

  /** What the last of several decisions leaves on record. */
  lemma LastDecision(rs: View, p: seq<ClientRequest>, x: ClientRequest, now: int)
    requires Servable(rs, p) && Servable(rs, [x])
    ensures Servable(rs, p + [x])
    ensures var t := ServedAll(rs, p + [x], now).0;
            && x.resID in t && x.resID in rs && x.client in t[x.resID].leases
            && var lease := t[x.resID].leases[x.client];
               && lease.wants == x.wants && lease.subclients == x.subclients
               && (Learning(rs[x.resID], now) ==> lease.has == x.has)
  {
    assert x in [x];
    ServedAllNext(rs, p, x, now);
    ServedKeepsModes(rs, p, now);
    var mid := ServedAll(rs, p, now).0;
    hide ServedAll;
    DecisionDemand(mid[x.resID], AsRequest(x), now);
    hide Decision, ValidState;
  }

  /** The order of a client's requests that puts the n-th last. */
  function LastOf(qs: seq<ClientRequest>, n: nat): (order: seq<ClientRequest>)
    requires n < |qs|
    ensures IsOrderOf(order, qs)
  {
    TakeOut(qs, n);
    qs[..n] + qs[n + 1..] + [qs[n]]
  }

  /** Two requests that disagree race: whichever is decided last stays on record. */
  lemma DisagreementMatters(rs: View, qs: seq<ClientRequest>, m: nat, n: nat, now: int)
    requires Servable(rs, qs) && OneClient(qs) && m < |qs| && n < |qs| && !Independent(rs, qs[m], qs[n], now)
    ensures Servable(rs, LastOf(qs, m)) && Servable(rs, LastOf(qs, n))
    ensures ServedAll(rs, LastOf(qs, m), now).0 != ServedAll(rs, LastOf(qs, n), now).0
  {
    hide ServedAll, ValidState;
    assert qs[m] in qs && qs[n] in qs;
    TakeOut(qs, m);
    TakeOut(qs, n);
    LastDecision(rs, qs[..m] + qs[m + 1..], qs[m], now);
    LastDecision(rs, qs[..n] + qs[n + 1..], qs[n], now);
  }

  ghost predicate AllOrdersAgree(rs: View, qs: seq<ClientRequest>, now: int)
    requires Servable(rs, qs)
  {
    forall order | IsOrderOf(order, qs) ::
      Servable(rs, order) && ServedAll(rs, order, now).0 == ServedAll(rs, qs, now).0
  }

  /** All orders of a client's requests end in the same state if and only if no
      two requests for one resource disagree. */
  lemma OrdersAgreeExactlyWhen(rs: View, qs: seq<ClientRequest>, now: int)
    requires Servable(rs, qs) && OneClient(qs)
    ensures AllOrdersAgree(rs, qs, now) <==> OrderFree(rs, qs, now)
  {
    if OrderFree(rs, qs, now) {
      forall order | IsOrderOf(order, qs)
        ensures Servable(rs, order) && ServedAll(rs, order, now).0 == ServedAll(rs, qs, now).0
      {
        OrderDoesNotMatter(rs, qs, order, now);
      }
    } else {
      hide ServedAll, Servable;
      var x, y :| x in qs && y in qs && !Independent(rs, x, y, now);
      var m :| 0 <= m < |qs| && qs[m] == x;
      var n :| 0 <= n < |qs| && qs[n] == y;
      DisagreementMatters(rs, qs, m, n, now);
      assert IsOrderOf(LastOf(qs, m), qs) && IsOrderOf(LastOf(qs, n), qs);
    }
  }

  // ---- Safe capacities ----

  /** The client was decided on at this very moment. */
  ghost predicate JustDecided(s: State, client: string, subclients: int, now: int) {
    && ValidState(s) && client in s.leases && s.leases[client].subclients == subclients
    && forall c | c in s.leases && c != client :: !Expired(s.leases[c], now)
  }

  lemma DecidedReplaces(s: State, r: Request, now: int)
    requires 1 <= r.subclients && JustDecided(s, r.client, r.subclients, now)
    ensures Decided(s, r, now).leases == s.leases[r.client := Decision(s, r, now)]
    ensures Count(Demands(Decided(s, r, now).leases)) == Count(Demands(s.leases))
  {
    hide Decision, Count, Demands;
    DecisionDemand(s, r, now);
    assert Decided(s, r, now).leases == s.leases[r.client := Decision(s, r, now)];
    AssignMovesSums(s.leases, r.client, Decision(s, r, now));
  }

  /** Deciding once more for a client does not move the safe capacity. */
  lemma DecidedAgain(s: State, r: Request, now: int)
    requires ValidState(s) && 1 <= r.subclients
    ensures JustDecided(Decided(s, r, now), r.client, r.subclients, now)
    ensures JustDecided(s, r.client, r.subclients, now) ==> SafeOf(Decided(s, r, now)) == SafeOf(s)
  {
    hide Decision, Count, Demands;
    DecidedIsValid(s, r, now);
    DecisionDemand(s, r, now);
    if JustDecided(s, r.client, r.subclients, now) {
      DecidedReplaces(s, r, now);
    }
  }

  lemma SafeWhenDecided(rs: View, p: seq<ClientRequest>, x: ClientRequest, now: int)
    requires Servable(rs, p + [x])
    ensures var s := ServedAll(rs, p + [x], now).0;
            && x.resID in s && JustDecided(s[x.resID], x.client, x.subclients, now)
            && SafeOf(s[x.resID]).Some?
  {
    hide ValidState, Decided, SafeOf;
    assert x in p + [x] && forall y | y in p :: y in p + [x];
    assert Servable(rs, p) && Servable(rs, [x]);
    ServedAllNext(rs, p, x, now);
    var mid := ServedAll(rs, p, now).0;
    hide ServedAll;
    DecidedAgain(mid[x.resID], AsRequest(x), now);
    SafeIsDefined(Decided(mid[x.resID], AsRequest(x), now), x.client);
  }

  /** After a request was decided, further requests of the same client do not
      move the safe capacity of its resource: a response may read it at any time. */
  lemma {:induction false} SafeCapacityStays(rs: View, p: seq<ClientRequest>, x: ClientRequest, q: seq<ClientRequest>,
                                             now: int)
    requires Servable(rs, p + [x]) && Servable(rs, p + [x] + q)
    requires forall y | y in q :: y.client == x.client && y.subclients == x.subclients
    ensures var s, t := ServedAll(rs, p + [x], now).0, ServedAll(rs, p + [x] + q, now).0;
            && x.resID in s && x.resID in t && ValidState(s[x.resID])
            && JustDecided(t[x.resID], x.client, x.subclients, now)
            && SafeOf(t[x.resID]) == SafeOf(s[x.resID]) && SafeOf(t[x.resID]).Some?
    decreases |q|
  {
    hide ValidState, Decided, SafeOf, ServedAll;
    SafeWhenDecided(rs, p, x, now);
    if q == [] {
      assert p + [x] + q == p + [x];
    } else {
      var init, y := q[..|q| - 1], q[|q| - 1];
      var all := p + [x] + init;
      assert p + [x] + q == all + [y] && y in p + [x] + q;
      assert forall z | z in all :: z in p + [x] + q;
      assert Servable(rs, all) && Servable(rs, [y]);
      SafeCapacityStays(rs, p, x, init, now);
      ServedAllNext(rs, all, y, now);
      if y.resID == x.resID {
        DecidedAgain(ServedAll(rs, all, now).0[x.resID], AsRequest(y), now);
      }
    }
  }

  lemma SafeIsDefined(s: State, client: string)
    requires ValidState(s) && client in s.leases
    ensures SafeOf(s).Some?
  {
  }

  // ---- What stays on record ----

  /** The item is the lease that the client has on record. */
  predicate Recorded(t: View, item: Item, client: string) {
    item.id in t && client in t[item.id].leases && t[item.id].leases[client] == item.lease
  }

  /** Deciding twice in a row for the same demand yields the same lease. */
  predicate Idempotent(s: State, now: int) {
    Learning(s, now) || !s.template.algorithm.kind.ProportionalShare?
  }

  lemma SameOthers(d: DemandMap, e: DemandMap, c: string, x: Demand)
    requires d - {c} == e - {c}
    ensures d[c := x] == e[c := x]
  {
    assert d[c := x] == (d - {c})[c := x];
    assert e[c := x] == (e - {c})[c := x];
  }

  lemma FairTargetIgnoresOwn(m: Leases, n: Leases, capacity: real, r: Request)
    requires Counted(Demands(m)) && Counted(Demands(n)) && 1 <= r.subclients
    requires m - {r.client} == n - {r.client}
    ensures FairTarget(Demands(m), capacity, r) == FairTarget(Demands(n), capacity, r)
  {
    DemandsChange(m, r.client, ZERO_LEASE);
    DemandsChange(n, r.client, ZERO_LEASE);
    hide FairTarget, Demands;
    SameOthers(Demands(m), Demands(n), r.client, Demand(r.wants, r.subclients));
    TargetSeesOthers(Demands(m), capacity, r);
    TargetSeesOthers(Demands(n), capacity, r);
  }

  /** Other than for ProportionalShare, a client's own lease plays no part. */
  lemma GrantIgnoresOwn(kind: Kind, m: Leases, n: Leases, capacity: real, r: Request)
    requires Counted(Demands(m)) && Counted(Demands(n)) && 1 <= r.subclients && !kind.ProportionalShare?
    requires m - {r.client} == n - {r.client}
    ensures Grant(kind, m, capacity, r) == Grant(kind, n, capacity, r)
  {
    hide FairTarget, SumHas, Demands;
    if kind.FairShare? {
      FairTargetIgnoresOwn(m, n, capacity, r);
      SumHasChange(m, r.client, ZERO_LEASE);
      SumHasChange(n, r.client, ZERO_LEASE);
    }
  }

  lemma DecidedTwice(s: State, r: Request, now: int)
    requires ValidState(s) && 1 <= r.subclients && Idempotent(s, now)
    ensures ValidState(Decided(s, r, now))
    ensures Decision(Decided(s, r, now), r, now) == Decision(s, r, now)
  {
    DecidedIsValid(s, r, now);
    var t := Decided(s, r, now);
    CleanedIsCounted(s.leases, now);
    CleanedIsCounted(t.leases, now);
    if !Learning(s, now) {
      assert Cleaned(t.leases, now) - {r.client} == Cleaned(s.leases, now) - {r.client};
      GrantIgnoresOwn(s.template.algorithm.kind, Cleaned(t.leases, now), Cleaned(s.leases, now), CapacityAt(s, now), r);
    }
    hide Grant, Seconds, Demands, Cleaned;
  }

  /** The k-th item stays on record if its resource is not asked for again, or if
      asking again yields the same. */
  predicate StaysOnRecord(rs: View, order: seq<ClientRequest>, k: nat, now: int)
    requires k < |order|
  {
    || (forall j | k < j < |order| :: order[j].resID != order[k].resID)
    || (OrderFree(rs, order, now) && order[k].resID in rs && Idempotent(rs[order[k].resID], now))
  }

  /** The lease is on record, and asking again yields the same if that is so at all. */
  ghost predicate Settled(t: View, x: ClientRequest, lease: Lease, now: int) {
    && Servable(t, [x]) && x.resID in t && ValidState(t[x.resID]) && 1 <= x.subclients
    && Recorded(t, Item(x.resID, lease), x.client)
    && lease.refreshInterval == Seconds(t[x.resID].template.algorithm.refreshInterval)
    && (Idempotent(t[x.resID], now) ==> Decision(t[x.resID], AsRequest(x), now) == lease)
  }

  lemma ServedIsSettled(rs: View, x: ClientRequest, now: int)
    requires Servable(rs, [x])
    ensures Settled(Served(rs, x, now), x, ItemOf(rs, x, now).lease, now)
  {
    assert x in [x];
    ServedIsServable(rs, x, [x], now);
    var s := rs[x.resID];
    DecidedIsValid(s, AsRequest(x), now);
    DecisionDemand(s, AsRequest(x), now);
    if Idempotent(s, now) {
      DecidedTwice(s, AsRequest(x), now);
    }
    hide Decision, ValidState;
  }

  lemma SettledAgain(rs: View, x: ClientRequest, y: ClientRequest, lease: Lease, now: int)
    requires Settled(rs, x, lease, now) && Servable(rs, [y])
    requires x.resID == y.resID ==> Idempotent(rs[x.resID], now) && SameEffect(Learning(rs[x.resID], now), x, y)
    ensures Settled(Served(rs, y, now), x, lease, now)
  {
    assert y in [y] && x in [x];
    ServedIsServable(rs, y, [x], now);
    hide ValidState;
    if x.resID == y.resID {
      SameDecision(rs[x.resID], x, y, now);
      DecidedTwice(rs[x.resID], AsRequest(x), now);
    }
    hide Decision;
  }

  lemma {:induction false} ItemStays(rs: View, order: seq<ClientRequest>, k: nat, now: int)
    requires k < |order| && Servable(rs, order) && StaysOnRecord(rs, order, k, now)
    ensures var (t, items) := ServedAll(rs, order, now);
            |items| == |order| && items[k].id == order[k].resID && Settled(t, order[k], items[k].lease, now)
    decreases |order|
  {
    hide Decision, ValidState, Settled, Served, ItemOf, OrderFree;
    var init, y := order[..|order| - 1], order[|order| - 1];
    assert order == init + [y] && y in order && forall p | p in init :: p in order;
    assert Servable(rs, init) && Servable(rs, [y]);
    ServedAllNext(rs, init, y, now);
    var (mid, items) := ServedAll(rs, init, now);
    ItemIds(rs, init, now);
    if k == |init| {
      ServedIsSettled(mid, y, now);
      ItemOfItsResource(mid, y, now);
    } else {
      ServedKeepsModes(rs, init, now);
      FewerStay(rs, order, k, now);
      ItemStays(rs, init, k, now);
      SettledIsKnown(mid, order[k], items[k].lease, now);
      SettledAgain(mid, order[k], y, items[k].lease, now);
    }
  }

  lemma ItemOfItsResource(rs: View, y: ClientRequest, now: int)
    requires Servable(rs, [y])
    ensures ItemOf(rs, y, now).id == y.resID
  {
  }

  lemma SettledIsKnown(t: View, x: ClientRequest, lease: Lease, now: int)
    requires Settled(t, x, lease, now)
    ensures Servable(t, [x]) && x.resID in t && Recorded(t, Item(x.resID, lease), x.client)
    ensures lease.refreshInterval == Seconds(t[x.resID].template.algorithm.refreshInterval)
  {
  }

  /** What stays on record in the end stays until then, and the last request is
      for another resource or does no harm. */
  lemma FewerStay(rs: View, order: seq<ClientRequest>, k: nat, now: int)
    requires k < |order| - 1 && StaysOnRecord(rs, order, k, now)
    ensures StaysOnRecord(rs, order[..|order| - 1], k, now)
    ensures var x, y := order[k], order[|order| - 1];
            x.resID == y.resID ==>
              x.resID in rs && Idempotent(rs[x.resID], now) && SameEffect(Learning(rs[x.resID], now), x, y)
  {
    var init, x, y := order[..|order| - 1], order[k], order[|order| - 1];
    assert order == init + [y] && x in order && y in order && forall p | p in init :: p in order;
    if OrderFree(rs, order, now) {
      assert Independent(rs, x, y, now);
    }
  }

  lemma {:induction false} ItemIds(rs: View, order: seq<ClientRequest>, now: int)
    requires Servable(rs, order)
    ensures var items := ServedAll(rs, order, now).1;
            |items| == |order| && forall k | 0 <= k < |order| :: items[k].id == order[k].resID
    decreases |order|
  {
    hide Decision, Decided, ValidState;
    if order != [] {
      var q, rest := order[|order| - 1], order[..|order| - 1];
      assert q in order && forall p | p in rest :: p in order;
      ItemIds(rs, rest, now);
    }
  }

  // ---- Which resources are asked for ----

  function Ids(qs: seq<ClientRequest>): (ids: seq<string>)
    ensures |ids| == |qs| && forall i | 0 <= i < |qs| :: ids[i] == qs[i].resID
  {
    if qs == [] then [] else Ids(qs[..|qs| - 1]) + [qs[|qs| - 1].resID]
  }

  lemma IdsOfParts(p: seq<ClientRequest>, q: seq<ClientRequest>)
    ensures Ids(p + q) == Ids(p) + Ids(q)
  {
    hide Ids;
  }

  lemma IdsAround(before: seq<ClientRequest>, x: ClientRequest, after: seq<ClientRequest>)
    ensures Ids(before + [x] + after) == Ids(before) + [x.resID] + Ids(after)
  {
    assert Ids([x]) == [x.resID];
    hide Ids;
    IdsOfParts(before, [x]);
    IdsOfParts(before + [x], after);
  }

  lemma AroundMultiset(before: seq<string>, x: string, after: seq<string>)
    ensures multiset(before + [x] + after) == multiset(before + after) + multiset{x}
  {
  }

  lemma IdsTakeOut(before: seq<ClientRequest>, x: ClientRequest, after: seq<ClientRequest>)
    ensures multiset(Ids(before + [x] + after)) == multiset(Ids(before + after)) + multiset{x.resID}
  {
    hide Ids;
    IdsAround(before, x, after);
    IdsOfParts(before, after);
    AroundMultiset(Ids(before), x.resID, Ids(after));
  }

  lemma {:induction false} OrderAsksSame(p: seq<ClientRequest>, q: seq<ClientRequest>)
    requires IsOrderOf(p, q)
    ensures multiset(Ids(p)) == multiset(Ids(q))
    decreases |q|
  {
    OrderHasSame(p, q);
    if q != [] {
      hide Ids, IsOrderOf;
      var init, x := q[..|q| - 1], q[|q| - 1];
      assert q == init + [x] == init + [x] + [] && init + [] == init;
      var n := FindLast(p, init, x);
      var before, after := p[..n], p[n + 1..];
      assert p == before + [x] + after;
      OrderAsksSame(before + after, init);
      IdsTakeOut(before, x, after);
      IdsTakeOut(init, x, []);
    }
  }

  /** What is asked for once is not asked for again. */
  lemma AskedOnceStays(ids: seq<string>, k: nat)
    requires k < |ids| && multiset(ids)[ids[k]] == 1
    ensures forall j | k < j < |ids| :: ids[j] != ids[k]
  {
    forall j | k < j < |ids|
      ensures ids[j] != ids[k]
    {
      assert ids == ids[..k] + ([ids[k]] + (ids[k + 1..j] + ([ids[j]] + ids[j + 1..])));
    }
  }

  lemma {:induction false} LastAsked(order: seq<ClientRequest>, id: string) returns (k: nat)
    requires exists q :: q in order && q.resID == id
    ensures k < |order| && order[k].resID == id
    ensures forall j | k < j < |order| :: order[j].resID != order[k].resID
    decreases |order|
  {
    var init, last := order[..|order| - 1], order[|order| - 1];
    if last.resID == id {
      k := |init|;
    } else {
      assert order == init + [last];
      k := LastAsked(init, id);
    }
  }

  lemma LastIsOnRecord(rs: View, order: seq<ClientRequest>, k: nat, now: int)
    requires k < |order| && forall j | k < j < |order| :: order[j].resID != order[k].resID
    ensures StaysOnRecord(rs, order, k, now)
  {
  }

  /** The resource is asked for once, or any times with the same demand where that
      yields the same. */
  predicate AskingAgainIsSafe(rs: View, qs: seq<ClientRequest>, id: string, now: int) {
    || multiset(Ids(qs))[id] == 1
    || (OrderFree(rs, qs, now) && id in rs && Idempotent(rs[id], now))
  }

  lemma SafeIsOnRecord(rs: View, qs: seq<ClientRequest>, order: seq<ClientRequest>, k: nat, now: int)
    requires IsOrderOf(order, qs) && k < |order| && AskingAgainIsSafe(rs, qs, order[k].resID, now)
    ensures StaysOnRecord(rs, order, k, now)
  {
    hide Ids, Idempotent, Independent;
    OrderHasSame(order, qs);
    OrderAsksSame(order, qs);
    if multiset(Ids(qs))[order[k].resID] == 1 {
      AskedOnceStays(Ids(order), k);
    } else {
      assert OrderFree(rs, order, now);
    }
  }

  // ---- Serving in some order ----

  /** t and the items are what serving the requests in the given order yields. */
  ghost predicate InOrder(rs: View, qs: seq<ClientRequest>, order: seq<ClientRequest>, t: View, items: seq<Item>,
                          now: int)
  {
    IsOrderOf(order, qs) && Servable(rs, order) && ServedAll(rs, order, now) == (t, items)
  }

  /** Some requests have been served, in some order, and the others are pending. */
  ghost predicate Underway(rs: View, qs: seq<ClientRequest>, order: seq<ClientRequest>, pending: seq<ClientRequest>,
                           t: View, items: seq<Item>, now: int)
  {
    && Servable(rs, order)
    && (forall q | q in pending :: Servable(rs, [q]))
    && multiset(order) + multiset(pending) == multiset(qs)
    && ServedAll(rs, order, now) == (t, items)
  }

  lemma NoneServed(rs: View, qs: seq<ClientRequest>, now: int)
    requires Servable(rs, qs)
    ensures Underway(rs, qs, [], qs, rs, [], now)
  {
    hide ValidState;
  }

  lemma AllServed(rs: View, qs: seq<ClientRequest>, order: seq<ClientRequest>, t: View, items: seq<Item>, now: int)
    requires Underway(rs, qs, order, [], t, items, now)
    ensures InOrder(rs, qs, order, t, items, now)
  {
    hide Servable, ServedAll;
  }

  lemma OneServed(rs: View, qs: seq<ClientRequest>, order: seq<ClientRequest>, pending: seq<ClientRequest>, n: nat,
                  t: View, items: seq<Item>, now: int)
    requires n < |pending| && Underway(rs, qs, order, pending, t, items, now)
    ensures pending[n].resID in t && Servable(t, [pending[n]])
    ensures Underway(rs, qs, order + [pending[n]], pending[..n] + pending[n + 1..],
                     Served(t, pending[n], now), items + [ItemOf(t, pending[n], now)], now)
  {
    var q := pending[n];
    assert q in [q];
    ServedAllNext(rs, order, q, now);
    hide ServedAll, ValidState, Served, ItemOf;
    TakeOut(pending, n);
  }

  lemma {:induction false} ItemsAreKnown(rs: View, order: seq<ClientRequest>, now: int)
    requires Servable(rs, order)
    ensures forall item | item in ServedAll(rs, order, now).1 :: item.id in rs
    decreases |order|
  {
    hide Decision, Decided, ValidState;
    if order != [] {
      var q, rest := order[|order| - 1], order[..|order| - 1];
      assert q in order && forall p | p in rest :: p in order;
      ItemsAreKnown(rs, rest, now);
    }
  }

  /** Whatever the order was, the items are of known resources; and without
      disagreement they and the state are those of the given order. */
  lemma InOrderMeans(rs: View, qs: seq<ClientRequest>, order: seq<ClientRequest>, t: View, items: seq<Item>, now: int)
    requires InOrder(rs, qs, order, t, items, now)
    ensures Servable(rs, qs) && ValidView(t) && forall item | item in items :: item.id in t
    ensures OrderFree(rs, qs, now) ==>
            t == ServedAll(rs, qs, now).0 && multiset(items) == multiset(ServedAll(rs, qs, now).1)
  {
    hide ServedAll, ValidState;
    OrderHasSame(order, qs);
    ItemsAreKnown(rs, order, now);
    if OrderFree(rs, qs, now) {
      OrderDoesNotMatter(rs, qs, order, now);
    }
  }
}
