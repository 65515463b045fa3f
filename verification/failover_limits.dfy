/** Why each condition of the failover protocol is needed: without it some run
    lets clients hold more than the capacity. */
module FailoverLimits {
  import opened Arithmetic
  import opened Sums
  import opened Store
  import opened Algorithms
  import opened Resources
  import opened Clients
  import opened Wire
  import opened Failover

  /** Some run ends in this world. */
  ghost predicate CanReach(template: Template, policy: Policy, w: World) {
    exists es: seq<Event> :: IsRun(template, policy, es) && Reached(template, es) == w
  }

  lemma Starts(template: Template, policy: Policy)
    ensures CanReach(template, policy, START)
  {
    assert IsRun(template, policy, []) && Reached(template, []) == START;
  }

  lemma Continues(template: Template, policy: Policy, w: World, e: Event)
    requires CanReach(template, policy, w) && Enabled(policy, w, e)
    ensures CanReach(template, policy, Step(template, w, e))
  {
    var es :| IsRun(template, policy, es) && Reached(template, es) == w;
    assert (es + [e])[..|es|] == es;
    hide Step, Enabled;
    assert IsRun(template, policy, es + [e]) && Reached(template, es + [e]) == Step(template, w, e);
  }

  /** How long a new master learns. */
  function LearningTime(template: Template): int {
    if LearningModeDuration(template.algorithm) <= 0 then 0 else LearningModeDuration(template.algorithm)
  }

  /** A lone client that asks for the whole capacity gets it. */
  lemma LoneGrant(kind: Kind, capacity: real, r: Request)
    requires Shares(kind) && 0.0 < capacity && r.wants == capacity && r.subclients == 1
    ensures Counted(Demands(map[])) && Grant(kind, map[], capacity, r) == capacity
  {
    var d: DemandMap := map[];
    assert Demands(map[]) == d && d - {r.client} == d;
    SumEmpty(WantsOf(d));
    SumEmpty(SubsOf(d));
    SumEmpty(HasOf(map[]));
    hide Sum, FairLevel, FairSecondExtra;
    if kind.FairShare? {
      assert FairEqualShare(d, capacity, r) == capacity;
      hide FairEqualShare;
    }
  }

  /** The world after a lone client's request for everything, in sharing mode. */
  lemma LoneRefresh(template: Template, w: World, c: string)
    requires Shared(template) && w.master.Some?
    requires w.master.value.template == template && w.master.value.expiryTime == None
    requires CanDecide(w, 1) && Cleaned(w.master.value.leases, w.now) == map[] && !Learning(w.master.value, w.now)
    ensures var v := Step(template, w, Refresh(c, template.capacity, 1));
            && v.now == w.now == v.lastGrant && v.master.Some? && ValidState(v.master.value)
            && v.master.value == w.master.value.(leases := v.master.value.leases)
            && v.held.Keys == w.held.Keys + {c} && (forall k | k in w.held && k != c :: v.held[k] == w.held[k])
            && Granted(template, v, c, w.now, template.capacity)
            && v.master.value.leases == map[c := LeaseFor(template, w.now, template.capacity)]
  {
    var s, r := w.master.value, RequestOf(w, c, template.capacity, 1);
    LoneGrant(template.algorithm.kind, template.capacity, r);
    DecidedIsValid(s, r, w.now);
    hide Grant, Seconds, ValidState;
  }

  /** The client has on record what it was granted at the given time. */
  predicate Granted(template: Template, w: World, c: string, at: int, capacity: real) {
    && c in w.held && w.held[c].capacity == capacity
    && w.held[c].expiryTime == (at + LeaseTime(template)) / Seconds(1)
  }

  lemma UsableFor(template: Template, w: World, c: string, at: int, capacity: real)
    requires Granted(template, w, c, at, capacity)
    ensures w.now <= at + LeaseTime(template) - Seconds(1) + 1 ==> Usable(w)(c) == capacity
    ensures at % Seconds(1) == 0 ==> (Usable(w)(c) == if w.now <= at + LeaseTime(template) then capacity else 0.0)
    ensures at % Seconds(1) == 0 ==> (Lapsed(HeldLease(w, c), w.now) <==> w.now > at + LeaseTime(template))
  {
    var lease := w.held[c];
    assert HeldLease(w, c) == Some(lease);
    assert LeaseTime(template) % Seconds(1) == 0;
    assert (at + LeaseTime(template)) - Seconds(1) < Seconds(lease.expiryTime) <= at + LeaseTime(template);
  }

  /** A lone client holds everything, by a grant that was just made. */
  predicate IsOpening(template: Template, w: World) {
    var T := LearningTime(template);
    && w.now == T == w.lastGrant && w.held.Keys == {"a"} && Granted(template, w, "a", T, template.capacity)
    && w.master == Some(State(map["a" := LeaseFor(template, T, template.capacity)], template, T, None))
  }

  function LeaseFor(template: Template, at: int, capacity: real): Lease {
    Lease(at + LeaseTime(template), Seconds(template.algorithm.refreshInterval), capacity, capacity, 1)
  }

  /** A master is elected at the very start, learns that there is nothing, and
      grants a lone client everything. */
  lemma OpeningIsReached(template: Template, policy: Policy) returns (w: World)
    requires Shared(template)
    ensures CanReach(template, policy, w) && IsOpening(template, w) && CanDecide(w, 1)
  {
    hide CanReach, Seconds;
    Starts(template, policy);
    Continues(template, policy, START, Elect);
    var v := World(0, -1, Some(NewState(template, 0)), map[]);
    Continues(template, policy, v, Tick(LearningTime(template)));
    w := v.(now := LearningTime(template));
    NewIsEmpty(template, 0, w.now);
    Continues(template, policy, w, Refresh("a", template.capacity, 1));
    LoneRefresh(template, w, "a");
    w := Step(template, w, Refresh("a", template.capacity, 1));
  }

  lemma NewIsEmpty(template: Template, since: int, now: int)
    requires 0.0 <= template.capacity
    ensures ValidState(NewState(template, since)) && Cleaned(NewState(template, since).leases, now) == map[]
  {
    assert Demands(map[]) == map[];
  }

  /** Two clients with everything each, or one with everything and another with
      something, are too much. */
  lemma TooMuch(template: Template, policy: Policy, w: World)
    requires CanReach(template, policy, w)
    requires w.held.Keys == {"a", "b"} && Usable(w)("a") == template.capacity && 0.0 < Usable(w)("b")
    ensures !SafeInAllRuns(template, policy)
  {
    SumTwo("a", "b", Usable(w));
    hide Sum, Usable;
    var es :| IsRun(template, policy, es) && Reached(template, es) == w;
    hide IsRun, Reached;
  }

  // ---- A learning mode that is too short ----

  /** The new master stops learning while a lease of the old one still runs, and
      grants everything again. */
  lemma ShortLearningIsUnsafe(template: Template, policy: Policy)
    requires Shared(template) && !LearnsLongEnough(template, policy)
    ensures !SafeInAllRuns(template, policy)
  {
    var T, since := LearningTime(template), LearningTime(template) + if policy.strictHandover then 1 else 0;
    var U := since + T;
    assert Seconds(1) <= LeaseTime(template) && T % Seconds(1) == 0;
    assert U <= T + LeaseTime(template);
    var w := OpeningIsReached(template, policy);
    hide CanReach, Seconds, Usable, SafeInAllRuns;
    Continues(template, policy, w, Tick(since));
    var w1 := w.(now := since);
    Continues(template, policy, w1, Elect);
    var w2 := w1.(master := Some(NewState(template, since)));
    Continues(template, policy, w2, Tick(U));
    var w3 := w2.(now := U);
    NewIsEmpty(template, since, U);
    assert !Learning(w3.master.value, U);
    Continues(template, policy, w3, Refresh("b", template.capacity, 1));
    LoneRefresh(template, w3, "b");
    var end := Step(template, w3, Refresh("b", template.capacity, 1));
    hide Step;
    UsableFor(template, end, "a", T, template.capacity);
    UsableFor(template, end, "b", U, template.capacity);
    TooMuch(template, policy, end);
  }

  // ---- Replies that get lost ----

  /** The server lowers a lease, the client never hears of it, and the difference
      is granted to somebody else. */
  lemma LostRepliesAreUnsafe(template: Template, policy: Policy)
    requires Shared(template) && !policy.repliesArrive
    ensures !SafeInAllRuns(template, policy)
  {
    var T := LearningTime(template);
    assert Seconds(1) <= LeaseTime(template) && T % Seconds(1) == 0;
    var w := OpeningIsReached(template, policy);
    hide CanReach, Seconds, Usable, SafeInAllRuns;
    UsableFor(template, w, "a", T, template.capacity);
    Continues(template, policy, w, LoseReply("a", 0.0, 1));
    NothingWanted(template, w);
    var v := Step(template, w, LoseReply("a", 0.0, 1));
    Continues(template, policy, v, Refresh("b", template.capacity / 2.0, 1));
    HalfGranted(template, v);
    var end := Step(template, v, Refresh("b", template.capacity / 2.0, 1));
    hide Step;
    UsableFor(template, end, "a", T, template.capacity);
    UsableFor(template, end, "b", T, template.capacity / 2.0);
    TooMuch(template, policy, end);
  }

  /** The holder of everything asks for nothing, and the reply is lost. */
  lemma NothingWanted(template: Template, w: World)
    requires Shared(template) && IsOpening(template, w) && CanDecide(w, 1)
    ensures var v := Step(template, w, LoseReply("a", 0.0, 1));
            && v.held == w.held && v.now == w.now && v.master.Some? && ValidState(v.master.value)
            && v.master.value == w.master.value.(leases := map["a" := LeaseFor(template, w.now, 0.0)])
  {
    var s, r := w.master.value, RequestOf(w, "a", 0.0, 1);
    var m := s.leases;
    assert Seconds(1) <= LeaseTime(template);
    assert Cleaned(m, w.now) == m;
    DecidedIsValid(s, r, w.now);
    NothingGranted(template.algorithm.kind, m, template.capacity, r);
    hide Grant, Seconds, ValidState;
  }

  lemma NothingGranted(kind: Kind, m: Leases, capacity: real, r: Request)
    requires Shares(kind) && 0.0 < capacity && r.client == "a" && r.wants == 0.0 && r.subclients == 1
    requires m.Keys == {"a"} && m["a"].has == capacity && m["a"].wants == capacity && m["a"].subclients == 1
    ensures Counted(Demands(m)) && Grant(kind, m, capacity, r) == 0.0
  {
    var d := Demands(m);
    assert d == map["a" := Demand(capacity, 1)] && d.Keys == {"a"} && d - {"a"} == map[];
    SumOne("a", WantsOf(d));
    SumOne("a", SubsOf(d));
    SumOne("a", HasOf(m));
    SumEmpty(SubsOf(d - {"a"}));
    hide Sum, FairLevel, FairSecondExtra;
    if kind.FairShare? {
      assert FairEqualShare(d, capacity, r) == capacity;
      hide FairEqualShare;
    }
  }

  /** Another client then gets half of the capacity. */
  lemma HalfGranted(template: Template, w: World)
    requires Shared(template) && w.master.Some? && w.now == LearningTime(template) && "b" !in w.held
    requires var s := w.master.value;
             && ValidState(s) && s.template == template && s.expiryTime == None
             && s.learningModeEndTime == LearningTime(template)
             && s.leases == map["a" := LeaseFor(template, w.now, 0.0)]
    ensures var v := Step(template, w, Refresh("b", template.capacity / 2.0, 1));
            && v.now == w.now && v.held.Keys == w.held.Keys + {"b"}
            && (forall k | k in w.held :: v.held[k] == w.held[k])
            && Granted(template, v, "b", w.now, template.capacity / 2.0)
  {
    var s, r := w.master.value, RequestOf(w, "b", template.capacity / 2.0, 1);
    var m := s.leases;
    assert Seconds(1) <= LeaseTime(template);
    assert Cleaned(m, w.now) == m;
    HalfGrant(template.algorithm.kind, m, template.capacity, r);
    hide Grant, Seconds, ValidState, Demands;
  }

  lemma HalfGrant(kind: Kind, m: Leases, capacity: real, r: Request)
    requires Shares(kind) && 0.0 < capacity && r.client == "b" && r.wants == capacity / 2.0 && r.subclients == 1
    requires m.Keys == {"a"} && m["a"].has == 0.0 && m["a"].wants == 0.0 && m["a"].subclients == 1
    ensures Counted(Demands(m)) && Grant(kind, m, capacity, r) == capacity / 2.0
  {
    var d := Demands(m);
    assert d == map["a" := Demand(0.0, 1)] && d.Keys == {"a"} && d - {"b"} == d;
    SumOne("a", WantsOf(d));
    SumOne("a", SubsOf(d));
    SumOne("a", HasOf(m));
    hide Sum, FairLevel, FairSecondExtra;
    if kind.FairShare? {
      assert FairEqualShare(d, capacity, r) == capacity / 2.0;
      hide FairEqualShare;
    }
  }

  // ---- Claims of lapsed leases ----

  lemma LapseIsWhole(template: Template)
    requires Shared(template)
    ensures Seconds(1) <= LeaseTime(template) && 0 <= LearningTime(template)
    ensures (LearningTime(template) + LeaseTime(template) + Seconds(1)) % Seconds(1) == 0
  {
    var algorithm := template.algorithm;
    var configured := algorithm.learningModeDuration;
    var n := if configured.Some? then configured.value else algorithm.leaseLength;
    var learning := if n <= 0 then 0 else n;
    assert LearningTime(template) == Seconds(learning);
    hide LearningTime;
    assert LearningTime(template) + LeaseTime(template) + Seconds(1) == Seconds(learning + algorithm.leaseLength + 1);
    hide LeaseTime, Seconds;
    SecondsAreWhole(learning + algorithm.leaseLength + 1);
  }

  lemma SecondsAreWhole(n: int)
    ensures Seconds(n) % Seconds(1) == 0
  {
  }

  lemma LapsesAtServer(template: Template, at: int, now: int)
    requires at + LeaseTime(template) < now
    ensures Cleaned(map["a" := LeaseFor(template, at, template.capacity)], now) == map[]
  {
    hide LeaseTime;
  }

  /** A lone client's lease on everything lapses, at the server too. */
  lemma LeaseLapses(template: Template, policy: Policy) returns (w: World)
    requires Shared(template)
    ensures CanReach(template, policy, w) && w.held.Keys == {"a"} && w.now % Seconds(1) == 0
    ensures w.held["a"].capacity == template.capacity && CanDecide(w, 1) && w.master.Some?
    ensures w.master.value.template == template && w.master.value.expiryTime == None
    ensures Cleaned(w.master.value.leases, w.now) == map[] && !Learning(w.master.value, w.now)
  {
    var T, L := LearningTime(template), LeaseTime(template);
    var V := T + L + Seconds(1);
    LapseIsWhole(template);
    LapsesAtServer(template, T, V);
    var v := OpeningIsReached(template, policy);
    hide CanReach, Seconds, Usable, Cleaned, LeaseTime, LearningTime;
    Continues(template, policy, v, Tick(V));
    w := v.(now := V);
  }

  /** A client's lease lapses and its capacity is granted to somebody else; the
      client still has the lease on record. */
  lemma GrantedAgain(template: Template, policy: Policy) returns (w: World)
    requires Shared(template)
    ensures CanReach(template, policy, w) && w.held.Keys == {"a", "b"}
    ensures w.lastGrant == w.now && w.now % Seconds(1) == 0
    ensures w.held["a"].capacity == template.capacity && Granted(template, w, "b", w.now, template.capacity)
  {
    hide CanReach, Seconds, Granted, Cleaned, CanDecide;
    var v := LeaseLapses(template, policy);
    Continues(template, policy, v, Refresh("b", template.capacity, 1));
    LoneRefresh(template, v, "b");
    hide Step;
    w := Step(template, v, Refresh("b", template.capacity, 1));
  }

  /** A new master then believes the client's claim of the old lease. */
  lemma LapsedClaimsAreUnsafe(template: Template, policy: Policy)
    requires Shared(template) && !policy.freshClaims && LearnsLongEnough(template, policy)
    ensures !SafeInAllRuns(template, policy)
  {
    var w := GrantedAgain(template, policy);
    var since := w.now + 1;
    assert Seconds(1) <= LeaseTime(template);
    assert LearningModeEndTime(since, LearningModeDuration(template.algorithm)) > since;
    hide CanReach, Seconds, Usable, SafeInAllRuns;
    Continues(template, policy, w, Tick(since));
    var w1 := w.(now := since);
    Continues(template, policy, w1, Elect);
    var w2 := w1.(master := Some(NewState(template, since)));
    NewIsEmpty(template, since, since);
    Continues(template, policy, w2, Refresh("a", template.capacity, 1));
    StaleClaim(template, w2);
    var end := Step(template, w2, Refresh("a", template.capacity, 1));
    hide Step;
    UsableFor(template, end, "b", w.now, template.capacity);
    UsableFor(template, end, "a", since, template.capacity);
    TooMuch(template, policy, end);
  }

  /** In learning mode the whole claim is granted. */
  lemma StaleClaim(template: Template, w: World)
    requires w.master.Some? && ValidState(w.master.value) && w.master.value.template == template
    requires Learning(w.master.value, w.now) && "a" in w.held && w.held["a"].capacity == template.capacity
    ensures var v := Step(template, w, Refresh("a", template.capacity, 1));
            && v.now == w.now && v.held.Keys == w.held.Keys
            && (forall k | k in w.held && k != "a" :: v.held[k] == w.held[k])
            && Granted(template, v, "a", w.now, template.capacity)
  {
    DecisionDemand(w.master.value, RequestOf(w, "a", template.capacity, 1), w.now);
    hide Decision, Decided, ValidState, Seconds;
  }

  /** In the fields of the template: without a configured learning mode the
      handover has to be strict, and so it has if the configured one is as long
      as a lease. */
  predicate OutlastsLease(template: Template, policy: Policy) {
    var algorithm := template.algorithm;
    match algorithm.learningModeDuration
    case None => policy.strictHandover
    case Some(n) => algorithm.leaseLength < n || (policy.strictHandover && algorithm.leaseLength == n)
  }

  lemma LearnsLongEnoughExactlyWhen(template: Template, policy: Policy)
    requires Shared(template)
    ensures LearnsLongEnough(template, policy) <==> OutlastsLease(template, policy)
  {
  }

  /** The protocol is safe in all runs if and only if no request carries a lapsed
      lease, no reply is lost, and the learning mode, together with a strict
      handover, outlasts the leases. */
  lemma SafeExactlyWhenSound(template: Template, policy: Policy)
    requires Shared(template)
    ensures SafeInAllRuns(template, policy) <==>
            policy.freshClaims && policy.repliesArrive && OutlastsLease(template, policy)
  {
    LearnsLongEnoughExactlyWhen(template, policy);
    hide SafeInAllRuns, LearnsLongEnough, OutlastsLease;
    if Sound(template, policy) {
      SoundIsSafe(template, policy);
    } else if !LearnsLongEnough(template, policy) {
      ShortLearningIsUnsafe(template, policy);
    } else if !policy.repliesArrive {
      LostRepliesAreUnsafe(template, policy);
    } else {
      LapsedClaimsAreUnsafe(template, policy);
    }
  }
}
