/** The lease protocol across mastership changes, for one resource.

    One master at a time serves any number of clients. A master that takes over
    starts with an empty store and, while its learning mode lasts, grants every
    client what it claims to hold. */
module Failover {
  import opened Arithmetic
  import opened Sums
  import opened Store
  import opened Algorithms
  import opened Targets
  import opened Resources
  import opened Commitment
  import opened Clients
  import opened Wire

  /** The resource at the current master, if there is a master, and the leases
      that clients have on record. `lastGrant` remembers when any master last
      granted a lease. */
  datatype World = World(now: int, lastGrant: int, master: Option<State>, held: map<string, WireLease>)

  const START := World(0, -1, None, map[])

  datatype Event =
    | Tick(to: int)
    | Elect
    | Depose
    /** A request, the decision on it and the reply, in one step. */
    | Refresh(client: string, wants: real, subclients: int)
    /** The same, but the reply is lost. */
    | LoseReply(client: string, wants: real, subclients: int)
    /** A request that fails: the client gives up a lapsed lease. */
    | Fail(client: string)
    /** The client releases its lease. */
    | Leave(client: string)
    /** The client goes away without a word. */
    | Crash(client: string)

  /** What is taken for granted about the environment: a request never carries a
      lapsed lease; replies are not lost; a new master comes strictly after the
      last grant of the one before. */
  datatype Policy = Policy(freshClaims: bool, repliesArrive: bool, strictHandover: bool)

  function HeldLease(w: World, c: string): Option<WireLease> {
    if c in w.held then Some(w.held[c]) else None
  }

  function RequestOf(w: World, c: string, wants: real, subclients: int): Request {
    Request(c, Claim(HeldLease(w, c)), wants, subclients)
  }

  /** There is a master and the request is well-formed. A reachable master is
      always valid: `Inv` says so. */
  ghost predicate CanDecide(w: World, subclients: int) {
    w.master.Some? && ValidState(w.master.value) && 1 <= subclients
  }

  ghost predicate Enabled(policy: Policy, w: World, e: Event) {
    match e
    case Tick(to) => w.now <= to
    case Elect => policy.strictHandover ==> w.lastGrant < w.now
    case Refresh(c, wants, subclients) =>
      && CanDecide(w, subclients) && 0.0 <= wants
      && (policy.freshClaims && c in w.held ==> !Lapsed(HeldLease(w, c), w.now))
    case LoseReply(c, wants, subclients) =>
      && CanDecide(w, subclients) && 0.0 <= wants && !policy.repliesArrive
      && (policy.freshClaims && c in w.held ==> !Lapsed(HeldLease(w, c), w.now))
    case _ => true
  }

  ghost function Step(template: Template, w: World, e: Event): World {
    match e
    case Tick(to) => w.(now := to)
    case Elect => w.(master := Some(NewState(template, w.now)))
    case Depose => w.(master := None)
    case Refresh(c, wants, subclients) =>
      if !CanDecide(w, subclients) then w else
        var s, r := w.master.value, RequestOf(w, c, wants, subclients);
        World(w.now, w.now, Some(Decided(s, r, w.now)), w.held[c := OnWire(Decision(s, r, w.now))])
    case LoseReply(c, wants, subclients) =>
      if !CanDecide(w, subclients) then w else
        World(w.now, w.now, Some(Decided(w.master.value, RequestOf(w, c, wants, subclients), w.now)), w.held)
    case Fail(c) => if Lapsed(HeldLease(w, c), w.now) then w.(held := w.held - {c}) else w
    case Leave(c) =>
      World(w.now, w.lastGrant,
            if w.master.Some? then Some(w.master.value.(leases := w.master.value.leases - {c})) else None,
            w.held - {c})
    case Crash(c) => w.(held := w.held - {c})
  }

  ghost function Reached(template: Template, es: seq<Event>): World {
    if es == [] then START else Step(template, Reached(template, es[..|es| - 1]), es[|es| - 1])
  }

  /** A run: each event is enabled where it happens. */
  ghost predicate IsRun(template: Template, policy: Policy, es: seq<Event>) {
    es == [] ||
    (IsRun(template, policy, es[..|es| - 1]) && Enabled(policy, Reached(template, es[..|es| - 1]), es[|es| - 1]))
  }

  /** What a client may use right now. */
  function Usable(w: World): string -> real {
    c => if c in w.held && !Lapsed(Some(w.held[c]), w.now) then w.held[c].capacity else 0.0
  }

  ghost function TotalHeld(w: World): real {
    Sum(w.held.Keys, Usable(w))
  }

  ghost predicate SafeInAllRuns(template: Template, policy: Policy) {
    forall es: seq<Event> | IsRun(template, policy, es) :: TotalHeld(Reached(template, es)) <= template.capacity
  }

  predicate Shared(template: Template) {
    Shares(template.algorithm.kind) && 0.0 < template.capacity && 1 <= template.algorithm.leaseLength
  }

  function LeaseTime(template: Template): int {
    Seconds(template.algorithm.leaseLength)
  }

  /** The learning mode outlasts every lease of earlier masters. */
  predicate LearnsLongEnough(template: Template, policy: Policy) {
    LeaseTime(template) < LearningModeDuration(template.algorithm) + if policy.strictHandover then 1 else 0
  }

  predicate Sound(template: Template, policy: Policy) {
    policy.freshClaims && policy.repliesArrive && LearnsLongEnough(template, policy)
  }

  // ---- The invariant ----

  function LeasesOf(w: World): Leases {
    if w.master.Some? then w.master.value.leases else map[]
  }

  /** What a client may still come to use: what the master has on record for it,
      or else what it holds from an earlier master. */
  function CommittedTo(w: World): string -> real {
    c => if c in LeasesOf(w) then LeasesOf(w)[c].has else Usable(w)(c)
  }

  ghost function Committed(w: World): real {
    Sum(w.held.Keys + LeasesOf(w).Keys, CommittedTo(w))
  }

  ghost predicate StoreIsSane(template: Template, w: World) {
    w.master.Some? ==>
      var s := w.master.value;
      && ValidState(s) && s.template == template && s.expiryTime == None
      && Sane(Demands(s.leases)) && (forall c | c in s.leases :: 0.0 <= s.leases[c].has)
  }

  /** Every lease on record was granted no later than the last grant. */
  predicate HeldIsOld(template: Template, w: World) {
    forall c | c in w.held ::
      0.0 <= w.held[c].capacity && Seconds(w.held[c].expiryTime) <= w.lastGrant + LeaseTime(template)
  }

  /** A lease that can be used is in the master's store, or it will have run out
      when the learning mode ends. */
  predicate HeldIsKnown(w: World) {
    w.master.Some? ==>
      forall c | c in w.held && !Lapsed(Some(w.held[c]), w.now) ::
        if c in w.master.value.leases then
          && w.master.value.leases[c].has == w.held[c].capacity
          && Seconds(w.held[c].expiryTime) <= w.master.value.leases[c].expiry
        else
          Seconds(w.held[c].expiryTime) < w.master.value.learningModeEndTime
  }

  ghost predicate Inv(template: Template, w: World) {
    && w.lastGrant <= w.now && 0 <= w.now
    && StoreIsSane(template, w) && HeldIsOld(template, w) && HeldIsKnown(w)
    && Committed(w) <= template.capacity
  }

  lemma CommittedToIsNonnegative(template: Template, w: World)
    requires StoreIsSane(template, w) && HeldIsOld(template, w)
    ensures forall c :: 0.0 <= CommittedTo(w)(c)
  {
    forall c
      ensures 0.0 <= CommittedTo(w)(c)
    {
      CommitmentOf(w, c);
      if c in LeasesOf(w) {
        assert 0.0 <= LeasesOf(w)[c].has;
      }
    }
  }

  lemma CommitmentOf(w: World, c: string)
    ensures CommittedTo(w)(c) ==
            if c in LeasesOf(w) then LeasesOf(w)[c].has
            else if c in w.held && !Lapsed(Some(w.held[c]), w.now) then w.held[c].capacity
            else 0.0
  {
    if c !in LeasesOf(w) {
      assert CommittedTo(w)(c) == Usable(w)(c);
    }
  }

  /** If no client is committed more than before, neither are all together. */
  lemma CommitsNoMore(template: Template, w: World, v: World)
    requires StoreIsSane(template, w) && HeldIsOld(template, w)
    requires v.held.Keys + LeasesOf(v).Keys <= w.held.Keys + LeasesOf(w).Keys
    requires forall c | c in v.held || c in LeasesOf(v) :: CommittedTo(v)(c) <= CommittedTo(w)(c)
    ensures Committed(v) <= Committed(w)
  {
    CommittedToIsNonnegative(template, w);
    hide Sum, CommittedTo, LeasesOf;
    SumDominated(v.held.Keys + LeasesOf(v).Keys, CommittedTo(v), w.held.Keys + LeasesOf(w).Keys, CommittedTo(w));
  }

  /** A client that can use a lease is committed to exactly that much. */
  lemma UsableIsCommitted(template: Template, w: World, c: string)
    requires Inv(template, w) && c in w.held && !Lapsed(Some(w.held[c]), w.now)
    ensures CommittedTo(w)(c) == w.held[c].capacity
  {
    CommitmentOf(w, c);
    hide Committed, CommittedTo, Seconds;
  }

  /** In every state that keeps the invariant the clients' total is in bounds. */
  lemma InvIsSafe(template: Template, w: World)
    requires Inv(template, w)
    ensures TotalHeld(w) <= template.capacity
  {
    CommittedToIsNonnegative(template, w);
    forall c | c in w.held
      ensures Usable(w)(c) <= CommittedTo(w)(c)
    {
      if !Lapsed(Some(w.held[c]), w.now) {
        UsableIsCommitted(template, w, c);
      }
    }
    hide Sum, CommittedTo, LeasesOf, Usable, HeldIsKnown, HeldIsOld, StoreIsSane;
    SumDominated(w.held.Keys, Usable(w), w.held.Keys + LeasesOf(w).Keys, CommittedTo(w));
  }

  lemma ElectKeepsInv(template: Template, policy: Policy, w: World)
    requires Inv(template, w) && Shared(template) && Sound(template, policy) && Enabled(policy, w, Elect)
    ensures Inv(template, Step(template, w, Elect))
  {
    var v := Step(template, w, Elect);
    assert v.master.value.learningModeEndTime == w.now + LearningModeDuration(template.algorithm);
    DropsToUsable(template, w, v);
    hide Committed;
  }

  /** Without its store, a client is committed to what it can still use. */
  lemma DropsToUsable(template: Template, w: World, v: World)
    requires Inv(template, w)
    requires LeasesOf(v) == map[] && v.held == w.held && v.now == w.now
    ensures Committed(v) <= template.capacity
  {
    forall c | c in v.held || c in LeasesOf(v)
      ensures CommittedTo(v)(c) <= CommittedTo(w)(c)
    {
      CommittedToIsNonnegative(template, w);
      CommitmentOf(v, c);
      if !Lapsed(Some(w.held[c]), w.now) {
        UsableIsCommitted(template, w, c);
      }
    }
    hide Committed, CommittedTo;
    CommitsNoMore(template, w, v);
  }

  /** Time passes, or a client loses a lease, or gives it back. */
  lemma LossKeepsInv(template: Template, w: World, e: Event)
    requires Inv(template, w)
    requires (e.Tick? && w.now <= e.to) || e.Fail? || e.Leave? || e.Crash?
    ensures Inv(template, Step(template, w, e))
  {
    LossCommitsNoMore(template, w, e);
    hide Committed, Seconds, Demands, ValidState;
    if e.Leave? && w.master.Some? {
      LeavingKeepsStoreSane(w.master.value, e.client);
    }
  }

  lemma LossCommitsNoMore(template: Template, w: World, e: Event)
    requires Inv(template, w)
    requires (e.Tick? && w.now <= e.to) || e.Fail? || e.Leave? || e.Crash?
    ensures Committed(Step(template, w, e)) <= template.capacity
  {
    var v := Step(template, w, e);
    CommittedToIsNonnegative(template, w);
    forall c | c in v.held || c in LeasesOf(v)
      ensures CommittedTo(v)(c) <= CommittedTo(w)(c)
    {
      CommitmentOf(v, c);
      CommitmentOf(w, c);
      hide Committed, CommittedTo, Usable, Seconds, Demands;
    }
    hide Committed, CommittedTo, Usable, StoreIsSane, HeldIsOld, HeldIsKnown;
    CommitsNoMore(template, w, v);
  }

  lemma LeavingKeepsStoreSane(s: State, c: string)
    requires ValidState(s) && Sane(Demands(s.leases)) && forall k | k in s.leases :: 0.0 <= s.leases[k].has
    ensures var m := s.leases - {c};
            && ValidState(s.(leases := m)) && Sane(Demands(m)) && forall k | k in m :: 0.0 <= m[k].has
  {
    DemandsChange(s.leases, c, ZERO_LEASE);
  }

  /** Events without a decision. */
  lemma QuietStepKeepsInv(template: Template, policy: Policy, w: World, e: Event)
    requires Inv(template, w) && Shared(template) && Sound(template, policy) && Enabled(policy, w, e)
    requires !e.Refresh? && !e.LoseReply?
    ensures Inv(template, Step(template, w, e))
  {
    match e
    case Elect => ElectKeepsInv(template, policy, w);
    case Depose => DropsToUsable(template, w, Step(template, w, e)); hide Committed;
    case _ => LossKeepsInv(template, w, e);
  }

  // ---- A request, the decision and the reply ----

  /** The store at the master commits no more than all commitments together. */
  lemma StoreIsBounded(template: Template, w: World)
    requires Inv(template, w) && w.master.Some? && 0.0 <= template.capacity
    ensures Bounded(w.master.value)
  {
    CommittedToIsNonnegative(template, w);
    var m := LeasesOf(w);
    forall c | c in m.Keys
      ensures HasOf(m)(c) <= CommittedTo(w)(c)
    {
      CommitmentOf(w, c);
    }
    hide Sum, CommittedTo, HeldIsKnown, HeldIsOld;
    SumDominated(m.Keys, HasOf(m), w.held.Keys + m.Keys, CommittedTo(w));
  }

  /** What a refresh leaves on record, at the server and at the client. */
  lemma RefreshRecords(template: Template, w: World, c: string, wants: real, subclients: int)
    requires Inv(template, w) && CanDecide(w, subclients)
    ensures var v := Step(template, w, Refresh(c, wants, subclients));
            var lease := Decision(w.master.value, RequestOf(w, c, wants, subclients), w.now);
            && LeasesOf(v) == Cleaned(LeasesOf(w), w.now)[c := lease]
            && v.held == w.held[c := OnWire(lease)]
            && OnWire(lease).capacity == lease.has
            && lease.expiry == w.now + LeaseTime(template)
            && Seconds(OnWire(lease).expiryTime) <= lease.expiry
            && lease.wants == wants && lease.subclients == subclients
            && (Learning(w.master.value, w.now) ==> lease.has == Claim(HeldLease(w, c)))
  {
    var s, r := w.master.value, RequestOf(w, c, wants, subclients);
    DecisionDemand(s, r, w.now);
    hide Decision;
    WireExpiryIsEarlier(Decision(s, r, w.now));
    hide Seconds;
  }

  lemma GrantIsNonnegative(template: Template, w: World, c: string, wants: real, subclients: int)
    requires Inv(template, w) && Shared(template) && CanDecide(w, subclients) && 0.0 <= wants
    ensures 0.0 <= Decision(w.master.value, RequestOf(w, c, wants, subclients), w.now).has
  {
    if Learning(w.master.value, w.now) {
      RefreshRecords(template, w, c, wants, subclients);
      hide Decision, Committed, Seconds;
    } else {
      StoreIsBounded(template, w);
      DecisionIsNonnegative(w.master.value, RequestOf(w, c, wants, subclients), w.now);
    }
  }

  lemma RefreshKeepsStoreSane(template: Template, w: World, c: string, wants: real, subclients: int)
    requires Inv(template, w) && Shared(template) && CanDecide(w, subclients) && 0.0 <= wants
    ensures StoreIsSane(template, Step(template, w, Refresh(c, wants, subclients)))
  {
    var s, r := w.master.value, RequestOf(w, c, wants, subclients);
    RefreshRecords(template, w, c, wants, subclients);
    GrantIsNonnegative(template, w, c, wants, subclients);
    DecidedIsValid(s, r, w.now);
    CleanKeepsBoundedParts(s, w.now);
    DemandsChange(Cleaned(s.leases, w.now), c, Decision(s, r, w.now));
    hide Decision, Demands, HeldIsKnown, HeldIsOld, Committed;
  }

  lemma CleanKeepsBoundedParts(s: State, now: int)
    requires Sane(Demands(s.leases)) && forall c | c in s.leases :: 0.0 <= s.leases[c].has
    ensures Sane(Demands(Cleaned(s.leases, now)))
    ensures forall c | c in Cleaned(s.leases, now) :: 0.0 <= Cleaned(s.leases, now)[c].has
  {
    var m := Cleaned(s.leases, now);
    assert forall c | c in Demands(m) :: Demands(m)[c] == Demands(s.leases)[c];
  }

  lemma RefreshKeepsHeldKnown(template: Template, w: World, c: string, wants: real, subclients: int)
    requires Inv(template, w) && CanDecide(w, subclients)
    ensures HeldIsKnown(Step(template, w, Refresh(c, wants, subclients)))
    ensures 0.0 <= Decision(w.master.value, RequestOf(w, c, wants, subclients), w.now).has ==>
            HeldIsOld(template, Step(template, w, Refresh(c, wants, subclients)))
  {
    var v := Step(template, w, Refresh(c, wants, subclients));
    RefreshRecords(template, w, c, wants, subclients);
    hide Decision, Committed, StoreIsSane, Seconds, ValidState, OnWire;
  }

  /** While learning, nobody is committed to more than before: a client claims
      only what it can use, and that is what the store has for it. */
  lemma LearningCommitsNoMore(template: Template, w: World, c: string, wants: real, subclients: int)
    requires Inv(template, w) && CanDecide(w, subclients) && Learning(w.master.value, w.now)
    requires c in w.held ==> !Lapsed(HeldLease(w, c), w.now)
    ensures Committed(Step(template, w, Refresh(c, wants, subclients))) <= template.capacity
  {
    var v := Step(template, w, Refresh(c, wants, subclients));
    RefreshRecords(template, w, c, wants, subclients);
    RefreshKeepsHeldKnown(template, w, c, wants, subclients);
    CommittedToIsNonnegative(template, w);
    hide Decision, Committed, CommittedTo, StoreIsSane, ValidState, OnWire, Seconds;
    forall k | k in w.held || k in LeasesOf(w) || k == c
      ensures CommittedTo(v)(k) <= CommittedTo(w)(k)
    {
      CommitmentOf(v, k);
      CommitmentOf(w, k);
    }
    LearnsNoMore(template, w, v, c);
  }

  /** The requesting client itself may be new; then it is committed to nothing. */
  lemma LearnsNoMore(template: Template, w: World, v: World, c: string)
    requires Inv(template, w)
    requires v.held.Keys + LeasesOf(v).Keys <= w.held.Keys + LeasesOf(w).Keys + {c}
    requires forall k | k in w.held || k in LeasesOf(w) || k == c :: CommittedTo(v)(k) <= CommittedTo(w)(k)
    ensures Committed(v) <= Committed(w)
  {
    CommittedToIsNonnegative(template, w);
    CommitmentOf(w, c);
    hide Sum, CommittedTo, LeasesOf, HeldIsKnown, HeldIsOld, StoreIsSane;
    SumDominated(v.held.Keys + LeasesOf(v).Keys, CommittedTo(v), w.held.Keys + LeasesOf(w).Keys, CommittedTo(w));
  }

  /** After learning, every lease that can be used is in the store, so what the
      algorithm keeps within the capacity is all there is. */
  lemma SharingCommitsOnlyStore(template: Template, w: World, c: string, wants: real, subclients: int)
    requires Inv(template, w) && Shared(template) && CanDecide(w, subclients) && 0.0 <= wants
    requires !Learning(w.master.value, w.now)
    ensures Committed(Step(template, w, Refresh(c, wants, subclients))) <= template.capacity
  {
    var v, s, r := Step(template, w, Refresh(c, wants, subclients)), w.master.value, RequestOf(w, c, wants, subclients);
    RefreshRecords(template, w, c, wants, subclients);
    RefreshKeepsHeldKnown(template, w, c, wants, subclients);
    RefreshKeepsStoreSane(template, w, c, wants, subclients);
    DecisionBoundsCommitment(s, r, w.now);
    hide Decision, SumHas, ValidState, OnWire, Seconds, Demands, Committed;
    var m := LeasesOf(v);
    assert v.now == w.now && v.master.value.learningModeEndTime <= v.now;
    forall k | k in v.held.Keys + m.Keys
      ensures CommittedTo(v)(k) <= if k in m.Keys then HasOf(m)(k) else 0.0
    {
      CommitmentOf(v, k);
    }
    SumsToStore(template, v);
  }

  lemma SumsToStore(template: Template, v: World)
    requires v.master.Some?
    requires forall k | k in v.held.Keys + LeasesOf(v).Keys ::
               CommittedTo(v)(k) <= if k in LeasesOf(v).Keys then HasOf(LeasesOf(v))(k) else 0.0
    ensures Committed(v) <= SumHas(LeasesOf(v))
  {
    hide Sum, CommittedTo, LeasesOf;
    SumDominated(v.held.Keys + LeasesOf(v).Keys, CommittedTo(v), LeasesOf(v).Keys, HasOf(LeasesOf(v)));
  }

  lemma RefreshKeepsInv(template: Template, policy: Policy, w: World, c: string, wants: real, subclients: int)
    requires Inv(template, w) && Shared(template) && policy.freshClaims
    requires Enabled(policy, w, Refresh(c, wants, subclients))
    ensures Inv(template, Step(template, w, Refresh(c, wants, subclients)))
  {
    RefreshKeepsStoreSane(template, w, c, wants, subclients);
    RefreshKeepsHeldKnown(template, w, c, wants, subclients);
    GrantIsNonnegative(template, w, c, wants, subclients);
    if Learning(w.master.value, w.now) {
      LearningCommitsNoMore(template, w, c, wants, subclients);
    } else {
      SharingCommitsOnlyStore(template, w, c, wants, subclients);
    }
    hide Committed, StoreIsSane, HeldIsKnown, HeldIsOld, Decision, Decided, ValidState;
  }

  // ---- Safety over all runs ----

  lemma {:induction false} RunKeepsInv(template: Template, policy: Policy, es: seq<Event>)
    requires Shared(template) && Sound(template, policy) && IsRun(template, policy, es)
    ensures Inv(template, Reached(template, es))
    decreases |es|
  {
    if es == [] {
      SumEmpty(CommittedTo(START));
      assert START.held.Keys + LeasesOf(START).Keys == {};
    } else {
      hide Inv, Step, Enabled;
      var before, e := es[..|es| - 1], es[|es| - 1];
      RunKeepsInv(template, policy, before);
      EventKeepsInv(template, policy, Reached(template, before), e);
    }
  }

  lemma EventKeepsInv(template: Template, policy: Policy, w: World, e: Event)
    requires Inv(template, w) && Shared(template) && Sound(template, policy) && Enabled(policy, w, e)
    ensures Inv(template, Step(template, w, e))
  {
    if e.Refresh? {
      RefreshKeepsInv(template, policy, w, e.client, e.wants, e.subclients);
    } else if !e.LoseReply? {
      QuietStepKeepsInv(template, policy, w, e);
    }
  }

  /** Over any run, with any number of mastership changes, clients never together
      hold usable leases on more than the capacity. */
  lemma SoundIsSafe(template: Template, policy: Policy)
    requires Shared(template) && Sound(template, policy)
    ensures SafeInAllRuns(template, policy)
  {
    forall es: seq<Event> | IsRun(template, policy, es)
      ensures TotalHeld(Reached(template, es)) <= template.capacity
    {
      RunKeepsInv(template, policy, es);
      InvIsSafe(template, Reached(template, es));
    }
  }

  /** When the learning mode is over, the master's store has every lease that a
      client can still use, for the same capacity and for at least as long. */
  lemma LearnedEverything(template: Template, policy: Policy, es: seq<Event>, c: string)
    requires Shared(template) && Sound(template, policy) && IsRun(template, policy, es)
    requires var w := Reached(template, es);
             && w.master.Some? && !Learning(w.master.value, w.now)
             && c in w.held && !Lapsed(Some(w.held[c]), w.now)
    ensures var w := Reached(template, es);
            && c in w.master.value.leases
            && w.master.value.leases[c].has == w.held[c].capacity
            && Seconds(w.held[c].expiryTime) <= w.master.value.leases[c].expiry
  {
    RunKeepsInv(template, policy, es);
    hide Committed, Reached, IsRun, StoreIsSane, Seconds;
  }
}
