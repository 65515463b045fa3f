/** Repeated refreshes: from any grants whatever, clients that keep asking for
    the same settle at their targets exactly when the targets fit. */
module Convergence {
  import opened Arithmetic
  import opened Sums
  import opened Store
  import opened Algorithms
  import opened Targets
  import opened Resources
  import opened Commitment
  import Proportional
  import FairSecondRound

  datatype Refresh = Refresh(r: Request, now: int)

  /** A refresh that repeats its stored demand, at a time when no lease has
      expired, the learning mode is over and the capacity is the template's. */
  ghost predicate Steady(s: State, x: Refresh) {
    && Repeats(Demands(s.leases), x.r)
    && Cleaned(s.leases, x.now) == s.leases
    && !Learning(s, x.now)
    && CapacityAt(s, x.now) == s.template.capacity
  }

  ghost predicate Sharing(s: State) {
    ValidState(s) && Shares(s.template.algorithm.kind) && 0.0 <= s.template.capacity
  }

  ghost function TargetIn(s: State): string -> real
    requires ValidState(s)
  {
    TargetOf(s.template.algorithm.kind, Demands(s.leases), s.template.capacity)
  }

  /** What one steady refresh does: it moves a single grant to the client's
      target, or as near to it as the unused capacity allows. */
  lemma SteadyStep(s: State, x: Refresh)
    requires Sharing(s) && Steady(s, x)
    ensures 1 <= x.r.subclients
    ensures var t := Decided(s, x.r, x.now);
            && Sharing(t) && t.template == s.template && Demands(t.leases) == Demands(s.leases)
            && t.leases == s.leases[x.r.client := t.leases[x.r.client]]
            && t.leases[x.r.client].has ==
               Min(TargetIn(s)(x.r.client), Unused(s.leases, s.template.capacity, x.r.client))
  {
    var d, c := Demands(s.leases), x.r.client;
    assert 1 <= d[c].subclients;
    TargetIgnoresClaim(s.template.algorithm.kind, d, s.template.capacity, x.r, 0.0);
    assert x.r.(has := 0.0) == Repeat(d, c);
    DecidedIsValid(s, x.r, x.now);
    DecisionDemand(s, x.r, x.now);
    DemandsChange(s.leases, c, Decision(s, x.r, x.now));
    GrantIsTarget(s.template.algorithm.kind, s.leases, s.template.capacity, x.r);
    hide Target, SumHas, Seconds, Grant;
    assert d[c := d[c]] == d;
  }

  ghost predicate AllSteady(s: State, xs: seq<Refresh>)
    requires Sharing(s)
    decreases |xs|
  {
    xs == [] ||
    (Steady(s, xs[0]) && (SteadyStep(s, xs[0]); AllSteady(Decided(s, xs[0].r, xs[0].now), xs[1..])))
  }

  ghost function Final(s: State, xs: seq<Refresh>): State
    requires Sharing(s) && AllSteady(s, xs)
    decreases |xs|
  {
    if xs == [] then s else
      SteadyStep(s, xs[0]);
      Final(Decided(s, xs[0].r, xs[0].now), xs[1..])
  }

  function Clients(xs: seq<Refresh>): set<string> {
    set x | x in xs :: x.r.client
  }

  lemma ClientsOfRest(xs: seq<Refresh>)
    requires xs != []
    ensures Clients(xs) == {xs[0].r.client} + Clients(xs[1..])
  {
    assert xs == [xs[0]] + xs[1..];
  }

  ghost predicate AtMostTarget(s: State, clients: set<string>)
    requires ValidState(s)
  {
    forall c | c in clients && c in s.leases :: s.leases[c].has <= TargetIn(s)(c)
  }

  ghost predicate AtTarget(s: State, clients: set<string>)
    requires ValidState(s)
  {
    forall c | c in clients && c in s.leases :: s.leases[c].has == TargetIn(s)(c)
  }

  /** Every client that has refreshed holds at most its target, whatever was
      handed out before. */
  lemma {:induction false} RoundCaps(s: State, xs: seq<Refresh>, capped: set<string>)
    requires Sharing(s) && AllSteady(s, xs) && AtMostTarget(s, capped)
    ensures var t := Final(s, xs);
            && Sharing(t) && t.template == s.template && Demands(t.leases) == Demands(s.leases)
            && AtMostTarget(t, capped + Clients(xs))
    decreases |xs|
  {
    hide Target, Min, Unused, Demands, Decision;
    if xs == [] {
      assert capped + Clients(xs) == capped;
    } else {
      SteadyStep(s, xs[0]);
      var t, c := Decided(s, xs[0].r, xs[0].now), xs[0].r.client;
      MinBelow(TargetIn(s)(c), Unused(s.leases, s.template.capacity, c));
      RoundCaps(t, xs[1..], capped + {c});
      ClientsOfRest(xs);
      assert capped + Clients(xs) == capped + {c} + Clients(xs[1..]);
    }
  }

  lemma MinBelow(a: real, b: real)
    ensures Min(a, b) <= a && (a <= b ==> Min(a, b) == a)
  {
  }

  /** If nobody holds more than its target and the targets fit, nobody else can
      be in the way of a client's target. */
  lemma RoomForTarget(s: State, c: string)
    requires ValidState(s) && c in s.leases && AtMostTarget(s, s.leases.Keys)
    requires SumTargets(s.template.algorithm.kind, Demands(s.leases), s.template.capacity) <= s.template.capacity
    ensures TargetIn(s)(c) <= Unused(s.leases, s.template.capacity, c)
  {
    hide Sum, Target;
    var keys := s.leases.Keys;
    assert Demands(s.leases).Keys == keys;
    SumRemove(keys, c, HasOf(s.leases));
    SumRemove(keys, c, TargetIn(s));
    SumMono(keys - {c}, HasOf(s.leases), TargetIn(s));
  }

  /** Once nobody holds more than its target, every refresh yields the target of
      its client and keeps all the others. */
  lemma {:induction false} RoundSettles(s: State, xs: seq<Refresh>, settled: set<string>)
    requires Sharing(s) && AllSteady(s, xs) && AtMostTarget(s, s.leases.Keys) && AtTarget(s, settled)
    requires SumTargets(s.template.algorithm.kind, Demands(s.leases), s.template.capacity) <= s.template.capacity
    ensures var t := Final(s, xs);
            && Sharing(t) && t.template == s.template && Demands(t.leases) == Demands(s.leases)
            && AtTarget(t, settled + Clients(xs))
    decreases |xs|
  {
    hide Target, Min, Unused, Decision;
    if xs == [] {
      assert settled + Clients(xs) == settled;
    } else {
      SteadyStep(s, xs[0]);
      var t, c := Decided(s, xs[0].r, xs[0].now), xs[0].r.client;
      RoomForTarget(s, c);
      MinBelow(TargetIn(s)(c), Unused(s.leases, s.template.capacity, c));
      hide Demands, SumTargets;
      RoundSettles(t, xs[1..], settled + {c});
      ClientsOfRest(xs);
      assert settled + Clients(xs) == settled + {c} + Clients(xs[1..]);
    }
  }

  /** In t the given clients hold the targets that they have in s. */
  ghost predicate HoldTargets(s: State, t: State, clients: set<string>)
    requires ValidState(s)
  {
    && t.leases.Keys == s.leases.Keys
    && forall c | c in clients && c in s.leases :: t.leases[c].has == TargetIn(s)(c)
  }

  /** From any grants, even overcommitted ones: after a round in which every
      client has refreshed, in whatever order, every later refresh yields its
      client's target and no refresh disturbs another client. */
  lemma Settles(s: State, first: seq<Refresh>, later: seq<Refresh>)
    requires Sharing(s) && AllSteady(s, first) && s.leases.Keys <= Clients(first)
    requires Sharing(Final(s, first)) && AllSteady(Final(s, first), later)
    requires SumTargets(s.template.algorithm.kind, Demands(s.leases), s.template.capacity) <= s.template.capacity
    ensures var t := Final(Final(s, first), later);
            && t.template == s.template && Demands(t.leases) == Demands(s.leases)
            && HoldTargets(s, t, Clients(later))
  {
    hide Target;
    RoundCaps(s, first, {});
    var m := Final(s, first);
    assert m.leases.Keys == Demands(m.leases).Keys == Demands(s.leases).Keys == s.leases.Keys;
    RoundSettles(m, later, {});
    var t := Final(m, later);
    assert t.leases.Keys == Demands(t.leases).Keys;
  }

  /** Two rounds of refreshes bring all clients to their targets if and only if
      the targets fit. */
  lemma SettlesExactlyWhenTargetsFit(s: State, first: seq<Refresh>, second: seq<Refresh>)
    requires Sharing(s) && AllSteady(s, first) && s.leases.Keys <= Clients(first)
    requires Sharing(Final(s, first)) && AllSteady(Final(s, first), second)
    requires s.leases.Keys <= Clients(second) && s.leases != map[]
    ensures var t := Final(Final(s, first), second);
            (HoldTargets(s, t, s.leases.Keys) <==>
             SumTargets(s.template.algorithm.kind, Demands(s.leases), s.template.capacity) <= s.template.capacity)
  {
    hide Target;
    RoundCaps(s, first, {});
    var m := Final(s, first);
    RoundCaps(m, second, {});
    var t := Final(m, second);
    assert t.leases.Keys == Demands(t.leases).Keys == Demands(s.leases).Keys == s.leases.Keys;
    var c :| c in s.leases;
    assert second != [];
    RunStaysWithinCapacity(m, second);
    hide Final, SumHas, Sharing;
    if HoldTargets(s, t, s.leases.Keys) {
      SumSame(s.leases.Keys, HasOf(t.leases), TargetIn(s));
      assert Demands(s.leases).Keys == s.leases.Keys;
    }
    if SumTargets(s.template.algorithm.kind, Demands(s.leases), s.template.capacity) <= s.template.capacity {
      Settles(s, first, second);
    }
  }

  lemma {:induction false} RunStaysWithinCapacity(s: State, xs: seq<Refresh>)
    requires Sharing(s) && AllSteady(s, xs) && xs != []
    ensures SumHas(Final(s, xs).leases) <= s.template.capacity
    decreases |xs|
  {
    hide Target, SumHas, Decision;
    var x := xs[0];
    SteadyStep(s, x);
    var t := Decided(s, x.r, x.now);
    if |xs| == 1 {
      DecisionBoundsCommitment(s, x.r, x.now);
      assert Final(t, xs[1..]) == t;
    } else {
      RunStaysWithinCapacity(t, xs[1..]);
    }
  }

  /** ProportionalShare settles from anywhere. */
  lemma ProportionalShareSettles(s: State, first: seq<Refresh>, later: seq<Refresh>)
    requires Sharing(s) && s.template.algorithm.kind.ProportionalShare?
    requires AllSteady(s, first) && s.leases.Keys <= Clients(first)
    requires Sharing(Final(s, first)) && AllSteady(Final(s, first), later)
    ensures var t := Final(Final(s, first), later);
            && Demands(t.leases) == Demands(s.leases)
            && HoldTargets(s, t, Clients(later))
  {
    Proportional.TargetsFit(Demands(s.leases), s.template.capacity);
    Settles(s, first, later);
  }

  /** FairShare settles in two rounds if and only if its second round gives no
      more than what is left below the levels or to nobody. */
  lemma FairShareSettlesExactlyWhen(s: State, first: seq<Refresh>, second: seq<Refresh>)
    requires Sharing(s) && s.template.algorithm.kind.FairShare? && s.leases != map[]
    requires AllSteady(s, first) && s.leases.Keys <= Clients(first)
    requires Sharing(Final(s, first)) && AllSteady(Final(s, first), second) && s.leases.Keys <= Clients(second)
    ensures var t, d, capacity := Final(Final(s, first), second), Demands(s.leases), s.template.capacity;
            && d != map[]
            && (HoldTargets(s, t, s.leases.Keys) <==>
                Sum(d.Keys, FairSecondRound.SecondOf(d, capacity)) <=
                Sum(d.Keys, FairSecondRound.OwnBelowOf(d, capacity)) + FairSecondRound.Unclaimed(d, capacity))
  {
    var c :| c in s.leases;
    assert c in Demands(s.leases);
    SettlesExactlyWhenTargetsFit(s, first, second);
    FairSecondRound.TargetsFitExactlyWhen(Demands(s.leases), s.template.capacity);
  }
}
