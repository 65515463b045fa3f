/** A token bucket that lets callers run into debt and tells them how long to
    wait. Times and durations are in nanoseconds. */
module TokenBucket {
  import opened Arithmetic

  // ---- The bucket as a value ----

  /** What never changes once the bucket is made. */
  datatype Settings = Settings(startTime: int, capacity: int, quantum: int, fillInterval: int)

  predicate ValidSettings(p: Settings) {
    1 <= p.capacity && 1 <= p.quantum && 1 <= p.fillInterval
  }

  datatype Level = Level(availableTokens: int, latestTick: int)

  function TickAt(p: Settings, now: int): int
    requires ValidSettings(p)
  {
    TruncDiv(now - p.startTime, p.fillInterval)
  }

  /** How many tokens are added in so many ticks. */
  function Accrued(p: Settings, ticks: int): int {
    ticks * p.quantum
  }

  function Adjusted(p: Settings, s: Level, tick: int): Level {
    var tokens := s.availableTokens + Accrued(p, tick - s.latestTick);
    Level(if tokens >= p.capacity then p.capacity else tokens, tick)
  }

  /** The tick at which what was just taken may be used. */
  function ReleaseTick(p: Settings, avail: int, tick: int): int
    requires ValidSettings(p)
  {
    if 0 < avail then tick else tick + TruncDiv(-avail - 1, p.quantum) + 1
  }

  /** The release tick in plain terms: for a debt the first tick by which enough is
      added; with nothing owed and nothing left, the present tick if a single token
      is added at a time, and else the next one. */
  predicate IsReleaseTick(p: Settings, avail: int, tick: int, k: int) {
    if avail < 0 then (k - 1 - tick) * p.quantum < -avail <= (k - tick) * p.quantum
    else if avail == 0 then k == if p.quantum == 1 then tick else tick + 1
    else k == tick
  }

  lemma ReleaseTickIs(p: Settings, avail: int, tick: int)
    requires ValidSettings(p)
    ensures IsReleaseTick(p, avail, tick, ReleaseTick(p, avail, tick))
  {
    if avail < 0 {
      DivMod(-avail - 1, p.quantum);
    } else if avail == 0 && p.quantum != 1 {
      assert 1 / p.quantum == 0;
    }
  }

  /** The caller waits until the release tick, unless that takes too long. */
  ghost predicate WaitsForRelease(p: Settings, avail: int, tick: int, now: int, maxWait: int, ok: bool, wait: int) {
    exists k ::
      && IsReleaseTick(p, avail, tick, k)
      && (ok <==> p.startTime + k * p.fillInterval - now <= maxWait)
      && wait == if ok then p.startTime + k * p.fillInterval - now else 0
  }

  lemma ReleaseDecides(p: Settings, avail: int, tick: int, now: int, maxWait: int)
    requires ValidSettings(p)
    ensures var wait := p.startTime + ReleaseTick(p, avail, tick) * p.fillInterval - now;
            && (wait <= maxWait ==> WaitsForRelease(p, avail, tick, now, maxWait, true, wait))
            && (maxWait < wait ==> WaitsForRelease(p, avail, tick, now, maxWait, false, 0))
  {
    ReleaseTickIs(p, avail, tick);
    hide IsReleaseTick, ReleaseTick;
  }

  /** Ticks are whole fill intervals since the start. */
  lemma TickSpans(p: Settings, now: int)
    requires ValidSettings(p) && p.startTime <= now
    ensures TickAt(p, now) * p.fillInterval <= now - p.startTime < (TickAt(p, now) + 1) * p.fillInterval
  {
    DivMod(now - p.startTime, p.fillInterval);
  }

  datatype Operation =
    | Take(now: int, count: int, maxWait: int)
    | TakeAvailable(now: int, count: int)

  /** Tokens granted by a call, and the tick at which they may be used. */
  datatype Grant = Grant(tokens: int, release: int)

  function WaitTime(p: Settings, now: int, avail: int, tick: int): int
    requires ValidSettings(p)
  {
    if 0 < avail then 0 else p.startTime + ReleaseTick(p, avail, tick) * p.fillInterval - now
  }

  /** The level after a call, and what it granted. */
  function Served(p: Settings, s: Level, op: Operation): (Level, Grant)
    requires ValidSettings(p)
  {
    var tick := TickAt(p, op.now);
    var t := Adjusted(p, s, tick);
    match op
    case Take(now, count, maxWait) =>
      var avail := t.availableTokens - count;
      if count <= 0 then (s, Grant(0, 0))
      else if WaitTime(p, now, avail, tick) > maxWait && avail <= 0 then (t, Grant(0, 0))
      else (t.(availableTokens := avail), Grant(count, ReleaseTick(p, avail, tick)))
    case TakeAvailable(now, count) =>
      if count < 0 then (s, Grant(0, 0))
      else
        var tokens := if t.availableTokens <= 0 then 0 else MinInt(count, t.availableTokens);
        (t.(availableTokens := t.availableTokens - tokens), Grant(tokens, tick))
  }

  /** When the tokens of a call may be used: at the release tick, or at once if they
      were only taken as far as there were any. */
  lemma ServedReleases(p: Settings, s: Level, op: Operation)
    requires ValidSettings(p)
    ensures var (t, g) := Served(p, s, op);
            0 < g.tokens ==>
              && t.latestTick == TickAt(p, op.now)
              && if op.Take? then IsReleaseTick(p, t.availableTokens, t.latestTick, g.release)
                 else g.release == t.latestTick
  {
    var t := Adjusted(p, s, TickAt(p, op.now));
    ReleaseTickIs(p, t.availableTokens - op.count, t.latestTick);
    hide TickAt, ReleaseTick, Accrued, IsReleaseTick;
  }

  // ---- The bucket itself ----

  class Bucket {
    const startTime: int
    const capacity: int
    const quantum: int
    const fillInterval: int
    const timeRange: int
    var availableTokens: int
    var latestTick: int

    constructor (capacity: int, quantum: int, fillInterval: int, timeRange: int, now: int)
      ensures AsSettings() == Settings(now, capacity, quantum, fillInterval)
      ensures this.timeRange == timeRange && AsLevel() == Level(0, 0)
    {
      startTime, this.capacity, this.timeRange := now, capacity, timeRange;
      this.quantum, this.fillInterval := quantum, fillInterval;
      availableTokens, latestTick := 0, 0;
    }

    function AsSettings(): Settings {
      Settings(startTime, capacity, quantum, fillInterval)
    }

    function AsLevel(): Level
      reads this
    {
      Level(availableTokens, latestTick)
    }

    method AdjustAvailableTokens(tick: int)
      modifies this
      ensures AsLevel() == Adjusted(AsSettings(), old(AsLevel()), tick)
    {
      availableTokens := availableTokens + (tick - latestTick) * quantum;
      if availableTokens >= capacity {
        availableTokens := capacity;
      }
      latestTick := tick;
    }

    method TakeTokens(now: int, count: int, maxWait: int) returns (wait: int, ok: bool)
      requires ValidSettings(AsSettings())
      modifies this
      ensures AsLevel() == Served(AsSettings(), old(AsLevel()), Take(now, count, maxWait)).0
      ensures ok <==> count <= 0 || Served(AsSettings(), old(AsLevel()), Take(now, count, maxWait)).1.tokens == count
      ensures ok && 0 < count && availableTokens <= 0 ==>
              && wait <= maxWait
              && var release := Served(AsSettings(), old(AsLevel()), Take(now, count, maxWait)).1.release;
                 now + wait == startTime + release * fillInterval
      ensures !ok || count <= 0 || 0 < availableTokens ==> wait == 0
      ensures count <= 0 ==> ok && wait == 0 && AsLevel() == old(AsLevel())
      ensures 0 < count ==>
              var avail := Filled(old(AsLevel()), latestTick) - count;
              && (startTime <= now ==>
                    latestTick * fillInterval <= now - startTime < (latestTick + 1) * fillInterval)
              && availableTokens == (if ok then avail else avail + count)
              && (0 < avail ==> ok && wait == 0)
              && (avail <= 0 ==> WaitsForRelease(AsSettings(), avail, latestTick, now, maxWait, ok, wait))
    {
      hide WaitsForRelease;
      if startTime <= now {
        TickSpans(AsSettings(), now);
      }
      if count <= 0 {
        return 0, true;
      }
      var tick := TruncDiv(now - startTime, fillInterval);
      AdjustAvailableTokens(tick);
      var avail := availableTokens - count;
      if avail > 0 {
        availableTokens := avail;
        return 0, true;
      }
      var endTick := tick + TruncDiv(-avail - 1, quantum) + 1;
      var endTime := startTime + endTick * fillInterval;
      var waitTime := endTime - now;
      ReleaseDecides(AsSettings(), avail, tick, now, maxWait);
      if waitTime > maxWait {
        return 0, false;
      }
      availableTokens := avail;
      return waitTime, true;
    }

    /** The tokens at a tick: a quantum is added for each tick, up to the capacity. */
    function Filled(level: Level, tick: int): int {
      MinInt(capacity, level.availableTokens + (tick - level.latestTick) * quantum)
    }

    method TakeAvailableTokens(now: int, count: int) returns (taken: int)
      requires ValidSettings(AsSettings())
      modifies this
      ensures AsLevel() == Served(AsSettings(), old(AsLevel()), TakeAvailable(now, count)).0
      ensures taken == Served(AsSettings(), old(AsLevel()), TakeAvailable(now, count)).1.tokens
      ensures count < 0 ==> taken == 0 && AsLevel() == old(AsLevel())
      ensures 0 <= count ==>
              && (startTime <= now ==>
                    latestTick * fillInterval <= now - startTime < (latestTick + 1) * fillInterval)
              && 0 <= taken <= count
              && availableTokens + taken == Filled(old(AsLevel()), latestTick)
              && (0 < taken ==> 0 <= availableTokens)
              && (taken < count ==> availableTokens <= 0)
    {
      if startTime <= now {
        TickSpans(AsSettings(), now);
      }
      if count < 0 {
        return 0;
      }
      AdjustAvailableTokens(TruncDiv(now - startTime, fillInterval));
      if availableTokens <= 0 {
        return 0;
      }
      taken := if count > availableTokens then availableTokens else count;
      availableTokens := availableTokens - taken;
    }
  }

  // ---- Histories ----

  function After(p: Settings, ops: seq<Operation>): Level
    requires ValidSettings(p)
  {
    if ops == [] then Level(0, 0) else Served(p, After(p, ops[..|ops| - 1]), ops[|ops| - 1]).0
  }

  /** What each call of a history granted. */
  function Grants(p: Settings, ops: seq<Operation>): (gs: seq<Grant>)
    requires ValidSettings(p)
    ensures |gs| == |ops|
  {
    if ops == [] then [] else
      Grants(p, ops[..|ops| - 1]) + [Served(p, After(p, ops[..|ops| - 1]), ops[|ops| - 1]).1]
  }

  predicate Chronological(p: Settings, ops: seq<Operation>) {
    && (forall i | 0 <= i < |ops| :: p.startTime <= ops[i].now)
    && (forall i, j | 0 <= i < j < |ops| :: ops[i].now <= ops[j].now)
  }

  function Total(gs: seq<Grant>): int {
    if gs == [] then 0 else Total(gs[..|gs| - 1]) + gs[|gs| - 1].tokens
  }

  /** Release ticks come in call order, and all that is granted up to and
      including a call has accrued by its release tick. */
  predicate OnSchedule(p: Settings, gs: seq<Grant>) {
    && (forall i | 0 <= i < |gs| :: 0 <= gs[i].tokens)
    && (forall i, j | 0 <= i < j < |gs| && 0 < gs[i].tokens && 0 < gs[j].tokens :: gs[i].release <= gs[j].release)
    && (forall i | 0 <= i < |gs| && 0 < gs[i].tokens :: Total(gs[..i + 1]) <= Accrued(p, gs[i].release))
  }

  // ---- Arithmetic of release ticks ----

  lemma AccruedAdds(p: Settings, x: int, y: int)
    ensures Accrued(p, x + y) == Accrued(p, x) + Accrued(p, y)
  {
  }

  lemma AccruedGrows(p: Settings, x: int, y: int)
    requires ValidSettings(p) && x <= y
    ensures Accrued(p, x) <= Accrued(p, y)
  {
    assert 0 <= (y - x) * p.quantum;
  }

  /** For a debt, the release tick is the least tick by which it is covered. */
  lemma ReleaseTickIsLeast(p: Settings, avail: int, tick: int, k: int)
    requires ValidSettings(p) && avail < 0
    ensures ReleaseTick(p, avail, tick) <= k <==> -avail <= Accrued(p, k - tick)
  {
    var n := (-avail - 1) / p.quantum;
    assert n * p.quantum <= -avail - 1 < (n + 1) * p.quantum;
    assert Accrued(p, n) == n * p.quantum && Accrued(p, n + 1) == (n + 1) * p.quantum;
    if n + 1 <= k - tick {
      AccruedGrows(p, n + 1, k - tick);
    } else {
      AccruedGrows(p, k - tick, n);
    }
    hide Accrued;
  }

  lemma ReleaseTickOfNone(p: Settings, tick: int)
    requires ValidSettings(p)
    ensures tick <= ReleaseTick(p, 0, tick) <= tick + 1
  {
    if p.quantum != 1 {
      assert 1 / p.quantum == 0;
    }
  }

  /** What is owed has accrued by the release tick, which is never in the past,
      and later than now if there is a debt. */
  lemma ReleaseTickCovers(p: Settings, avail: int, tick: int)
    requires ValidSettings(p)
    ensures tick <= ReleaseTick(p, avail, tick)
    ensures avail < 0 ==> tick < ReleaseTick(p, avail, tick)
    ensures -avail <= Accrued(p, ReleaseTick(p, avail, tick) - tick)
  {
    var r := ReleaseTick(p, avail, tick);
    assert Accrued(p, 0) == 0;
    ReleaseTickOfNone(p, tick);
    if avail < 0 {
      ReleaseTickIsLeast(p, avail, tick, r);
      ReleaseTickIsLeast(p, avail, tick, tick);
    } else if tick <= r {
      AccruedGrows(p, 0, r - tick);
    }
    hide Accrued;
  }

  /** A later level with no more tokens than have accrued releases no earlier. */
  lemma ReleaseTickMonotone(p: Settings, a: int, t: int, b: int, u: int)
    requires ValidSettings(p) && t <= u && b <= a + Accrued(p, u - t)
    ensures ReleaseTick(p, a, t) <= ReleaseTick(p, b, u)
  {
    var r := ReleaseTick(p, b, u);
    ReleaseTickCovers(p, b, u);
    ReleaseTickOfNone(p, t);
    assert Accrued(p, 0) == 0;
    if a < 0 {
      AccruedAdds(p, r - u, u - t);
      ReleaseTickIsLeast(p, a, t, r);
    }
    hide ReleaseTick, Accrued;
  }

  lemma TicksGrow(p: Settings, now: int, later: int)
    requires ValidSettings(p) && p.startTime <= now <= later
    ensures 0 <= TickAt(p, now) <= TickAt(p, later)
  {
    DivGrows(now - p.startTime, later - p.startTime, p.fillInterval);
  }

  lemma DivGrows(x: int, y: int, d: int)
    requires 0 <= x <= y && 1 <= d
    ensures 0 <= x / d <= y / d
  {
    assert x / d * d <= x && y < (y / d + 1) * d;
    MulGrows(y / d + 1, x / d, d);
  }

  // ---- Every history is on schedule ----

  /** What ties the level to the grants so far: granted and still available
      tokens together have accrued, and nothing is released later than what is
      taken next would be. */
  predicate Inv(p: Settings, s: Level, gs: seq<Grant>, now: int)
    requires ValidSettings(p)
  {
    && 0 <= s.latestTick <= TickAt(p, now)
    && Total(gs) + s.availableTokens <= Accrued(p, s.latestTick)
    && s.availableTokens <= p.capacity
    && (forall i | 0 <= i < |gs| && 0 < gs[i].tokens ::
          gs[i].release <= ReleaseTick(p, s.availableTokens, s.latestTick))
    && OnSchedule(p, gs)
  }

  /** Time passing keeps the schedule; a full bucket only loses tokens. */
  lemma AdjustKeepsInv(p: Settings, s: Level, gs: seq<Grant>, before: int, now: int)
    requires ValidSettings(p) && p.startTime <= before <= now && Inv(p, s, gs, before)
    ensures Inv(p, Adjusted(p, s, TickAt(p, now)), gs, now)
  {
    var t := Adjusted(p, s, TickAt(p, now));
    TicksGrow(p, before, now);
    ReleaseTickMonotone(p, s.availableTokens, s.latestTick, t.availableTokens, t.latestTick);
    AccruedAdds(p, s.latestTick, t.latestTick - s.latestTick);
    hide TickAt, ReleaseTick, Accrued, OnSchedule;
  }

  /** Taking tokens, to be used when what is then owed has accrued. */
  lemma GrantKeepsInv(p: Settings, s: Level, gs: seq<Grant>, now: int, tokens: int, release: int)
    requires ValidSettings(p) && Inv(p, s, gs, now) && 1 <= tokens
    requires var avail := s.availableTokens - tokens;
             release == ReleaseTick(p, avail, s.latestTick) || (0 <= avail && release == s.latestTick)
    ensures Inv(p, s.(availableTokens := s.availableTokens - tokens), gs + [Grant(tokens, release)], now)
  {
    hide TickAt, ReleaseTick, Accrued, OnSchedule;
    var avail, all := s.availableTokens - tokens, gs + [Grant(tokens, release)];
    AccruedOfNone(p);
    ReleaseTickMonotone(p, s.availableTokens, s.latestTick, avail, s.latestTick);
    ReleaseTickCovers(p, avail, s.latestTick);
    ReleaseTickOfSome(p, s.availableTokens, s.latestTick);
    AccruedAdds(p, s.latestTick, release - s.latestTick);
    assert all[..|gs|] == gs;
    assert Total(all) == Total(gs) + tokens;
    ScheduleGrows(p, gs, Grant(tokens, release));
  }

  lemma ReleaseTickOfSome(p: Settings, avail: int, tick: int)
    requires ValidSettings(p)
    ensures 0 < avail ==> ReleaseTick(p, avail, tick) == tick
  {
  }

  lemma ScheduleGrows(p: Settings, gs: seq<Grant>, g: Grant)
    requires OnSchedule(p, gs) && 0 < g.tokens
    requires forall i | 0 <= i < |gs| && 0 < gs[i].tokens :: gs[i].release <= g.release
    requires Total(gs + [g]) <= Accrued(p, g.release)
    ensures OnSchedule(p, gs + [g])
  {
    var all := gs + [g];
    hide Accrued, Total;
    forall i | 0 <= i < |all| && 0 < all[i].tokens
      ensures Total(all[..i + 1]) <= Accrued(p, all[i].release)
    {
      assert all[..i + 1] == if i < |gs| then gs[..i + 1] else all;
    }
  }

  lemma NoGrantKeepsSchedule(p: Settings, gs: seq<Grant>, release: int)
    requires OnSchedule(p, gs)
    ensures OnSchedule(p, gs + [Grant(0, release)])
  {
    var all := gs + [Grant(0, release)];
    hide Accrued, Total;
    forall i | 0 <= i < |all| && 0 < all[i].tokens
      ensures Total(all[..i + 1]) <= Accrued(p, all[i].release)
    {
      assert all[..i + 1] == gs[..i + 1];
    }
  }

  lemma NoGrantKeepsInv(p: Settings, s: Level, gs: seq<Grant>, now: int, release: int)
    requires ValidSettings(p) && Inv(p, s, gs, now)
    ensures Inv(p, s, gs + [Grant(0, release)], now)
  {
    var all := gs + [Grant(0, release)];
    assert all[..|gs|] == gs;
    assert Total(all) == Total(gs);
    NoGrantKeepsSchedule(p, gs, release);
    hide TickAt, ReleaseTick, Accrued, OnSchedule, Total;
  }

  lemma CallKeepsInv(p: Settings, s: Level, gs: seq<Grant>, before: int, op: Operation)
    requires ValidSettings(p) && p.startTime <= before <= op.now && Inv(p, s, gs, before)
    ensures Inv(p, Served(p, s, op).0, gs + [Served(p, s, op).1], op.now)
  {
    hide TickAt, ReleaseTick, Accrued, OnSchedule, Adjusted, Served;
    var t := Adjusted(p, s, TickAt(p, op.now));
    var (u, g) := Served(p, s, op);
    ServedCases(p, s, op);
    AdjustKeepsInv(p, s, gs, before, op.now);
    TicksGrow(p, before, op.now);
    if g.tokens == 0 {
      NoGrantKeepsInv(p, u, gs, op.now, g.release);
    } else {
      GrantKeepsInv(p, t, gs, op.now, g.tokens, g.release);
    }
  }

  lemma ServedCases(p: Settings, s: Level, op: Operation)
    requires ValidSettings(p)
    ensures var t, (u, g) := Adjusted(p, s, TickAt(p, op.now)), Served(p, s, op);
            if g.tokens == 0 then u == s || u == t
            else
              var avail := t.availableTokens - g.tokens;
              && 1 <= g.tokens && u == t.(availableTokens := avail)
              && (g.release == ReleaseTick(p, avail, t.latestTick) || (0 <= avail && g.release == t.latestTick))
  {
    hide TickAt, ReleaseTick, Accrued;
  }

  /** Over every history, release ticks come in call order, and cumulative grants
      never run ahead of what has accrued by the release tick. */
  lemma {:induction false} HistoryOnSchedule(p: Settings, ops: seq<Operation>)
    requires ValidSettings(p) && Chronological(p, ops)
    ensures OnSchedule(p, Grants(p, ops))
    ensures Inv(p, After(p, ops), Grants(p, ops), if ops == [] then p.startTime else ops[|ops| - 1].now)
    decreases |ops|
  {
    if ops == [] {
      TicksGrow(p, p.startTime, p.startTime);
    } else {
      var init := ops[..|ops| - 1];
      HistoryOnSchedule(p, init);
      hide Inv, Served, OnSchedule;
      var before := if init == [] then p.startTime else init[|init| - 1].now;
      CallKeepsInv(p, After(p, init), Grants(p, init), before, ops[|ops| - 1]);
      InvOnSchedule(p, After(p, ops), Grants(p, ops), ops[|ops| - 1].now);
    }
  }

  lemma InvOnSchedule(p: Settings, s: Level, gs: seq<Grant>, now: int)
    requires ValidSettings(p) && Inv(p, s, gs, now)
    ensures OnSchedule(p, gs)
  {
  }

  /** What may be used by a given tick. */
  function UsableBy(gs: seq<Grant>, tick: int): int {
    if gs == [] then 0 else
      var g := gs[|gs| - 1];
      UsableBy(gs[..|gs| - 1], tick) + if g.release <= tick then g.tokens else 0
  }

  /** The rate is kept: by any tick no more can be used than has accrued. */
  lemma RateIsKept(p: Settings, ops: seq<Operation>, tick: int)
    requires ValidSettings(p) && Chronological(p, ops) && 0 <= tick
    ensures UsableBy(Grants(p, ops), tick) <= tick * p.quantum
  {
    HistoryOnSchedule(p, ops);
    hide Inv;
    ScheduleKeepsRate(p, Grants(p, ops), tick);
    assert Accrued(p, tick) == tick * p.quantum;
  }

  lemma {:induction false} ScheduleKeepsRate(p: Settings, gs: seq<Grant>, tick: int)
    requires ValidSettings(p) && OnSchedule(p, gs) && 0 <= tick
    ensures UsableBy(gs, tick) <= Accrued(p, tick)
    decreases |gs|
  {
    hide Accrued;
    if gs == [] {
      AccruedGrows(p, 0, tick);
      AccruedOfNone(p);
    } else {
      var init, g := gs[..|gs| - 1], gs[|gs| - 1];
      OnSchedulePrefix(p, gs, |gs| - 1);
      ScheduleKeepsRate(p, init, tick);
      if 0 < g.tokens && g.release <= tick {
        UsableIsPart(init, tick);
        assert gs[..|gs| - 1 + 1] == gs;
        AccruedGrows(p, g.release, tick);
      }
    }
  }

  lemma AccruedOfNone(p: Settings)
    ensures Accrued(p, 0) == 0
  {
  }

  lemma OnSchedulePrefix(p: Settings, gs: seq<Grant>, n: nat)
    requires n <= |gs| && OnSchedule(p, gs)
    ensures OnSchedule(p, gs[..n])
  {
    hide Accrued;
    forall i | 0 <= i < n && 0 < gs[i].tokens
      ensures Total(gs[..n][..i + 1]) <= Accrued(p, gs[i].release)
    {
      assert gs[..n][..i + 1] == gs[..i + 1];
    }
  }

  lemma {:induction false} UsableIsPart(gs: seq<Grant>, tick: int)
    requires forall i | 0 <= i < |gs| :: 0 <= gs[i].tokens
    ensures UsableBy(gs, tick) <= Total(gs)
    decreases |gs|
  {
    if gs != [] {
      UsableIsPart(gs[..|gs| - 1], tick);
    }
  }

  // ---- Bursts ----

  lemma {:induction false} NeverOverfull(p: Settings, ops: seq<Operation>)
    requires ValidSettings(p)
    ensures After(p, ops).availableTokens <= p.capacity
    decreases |ops|
  {
    hide TickAt, Accrued;
    if ops != [] {
      NeverOverfull(p, ops[..|ops| - 1]);
      ServedSpends(p, After(p, ops[..|ops| - 1]), ops[|ops| - 1]);
    }
  }

  /** One call grants and leaves no more than there was and has accrued since. */
  lemma ServedSpends(p: Settings, s: Level, op: Operation)
    requires ValidSettings(p)
    ensures var (t, g) := Served(p, s, op);
            && 0 <= g.tokens
            && g.tokens + t.availableTokens <= s.availableTokens + Accrued(p, t.latestTick - s.latestTick)
            && t.availableTokens <= if s.availableTokens <= p.capacity then p.capacity else s.availableTokens
  {
    ServedCases(p, s, op);
    AccruedOfNone(p);
    hide TickAt, Accrued, ReleaseTick, Served;
  }

  lemma HistoryNext(p: Settings, ops: seq<Operation>)
    requires ValidSettings(p) && ops != []
    ensures var init, op := ops[..|ops| - 1], ops[|ops| - 1];
            var (t, g) := Served(p, After(p, init), op);
            After(p, ops) == t && Grants(p, ops) == Grants(p, init) + [g]
  {
    hide Served;
  }

  lemma SpendNext(p: Settings, s: Level, u: Level, t: Level, granted: int, tokens: int)
    requires granted + u.availableTokens <= s.availableTokens + Accrued(p, u.latestTick - s.latestTick)
    requires tokens + t.availableTokens <= u.availableTokens + Accrued(p, t.latestTick - u.latestTick)
    ensures granted + tokens + t.availableTokens <= s.availableTokens + Accrued(p, t.latestTick - s.latestTick)
  {
    AccruedAdds(p, u.latestTick - s.latestTick, t.latestTick - u.latestTick);
    hide Accrued;
  }

  /** Between any two moments of a history, what is granted and what is left come
      out of what there was and what has accrued; so at most a full bucket can be
      granted on top of that, before running into debt. */
  lemma {:induction false} GrantsComeFromBucket(p: Settings, ops: seq<Operation>, m: nat)
    requires ValidSettings(p) && m <= |ops|
    ensures var s, t := After(p, ops[..m]), After(p, ops);
            var granted := Total(Grants(p, ops)) - Total(Grants(p, ops[..m]));
            && granted + t.availableTokens <= s.availableTokens + Accrued(p, t.latestTick - s.latestTick)
            && s.availableTokens <= p.capacity
    decreases |ops|
  {
    hide After, Grants, Served, Accrued, Total;
    NeverOverfull(p, ops[..m]);
    if m == |ops| {
      assert ops[..m] == ops;
      AccruedOfNone(p);
    } else {
      var init, op := ops[..|ops| - 1], ops[|ops| - 1];
      assert init[..m] == ops[..m];
      GrantsComeFromBucket(p, init, m);
      HistoryNext(p, ops);
      var s, u := After(p, ops[..m]), After(p, init);
      var (t, g) := Served(p, u, op);
      ServedSpends(p, u, op);
      TotalOfOneMore(Grants(p, init), g);
      SpendNext(p, s, u, t, Total(Grants(p, init)) - Total(Grants(p, ops[..m])), g.tokens);
    }
  }

  /** None of the calls from the m-th on finds more than a full bucket. */
  predicate NeverSpills(p: Settings, ops: seq<Operation>, m: nat)
    requires ValidSettings(p) && m <= |ops|
  {
    forall i | m <= i < |ops| ::
      var s := After(p, ops[..i]);
      s.availableTokens + (TickAt(p, ops[i].now) - s.latestTick) * p.quantum <= p.capacity
  }

  /** A call that does not find the bucket overfull loses nothing. */
  lemma ServedSpendsAll(p: Settings, s: Level, op: Operation)
    requires ValidSettings(p)
    requires s.availableTokens + (TickAt(p, op.now) - s.latestTick) * p.quantum <= p.capacity
    ensures var (t, g) := Served(p, s, op);
            g.tokens + t.availableTokens == s.availableTokens + (t.latestTick - s.latestTick) * p.quantum
  {
    hide TickAt, ReleaseTick;
  }

  lemma TicksAdd(x: int, y: int, z: int, q: int)
    ensures (y - x) * q + (z - y) * q == (z - x) * q
  {
  }

  /** Unless the bucket overflows, all that is added is granted or left. */
  lemma {:induction false} NothingIsLost(p: Settings, ops: seq<Operation>, m: nat)
    requires ValidSettings(p) && m <= |ops| && NeverSpills(p, ops, m)
    ensures var s, t := After(p, ops[..m]), After(p, ops);
            Total(Grants(p, ops)) - Total(Grants(p, ops[..m])) + t.availableTokens ==
            s.availableTokens + (t.latestTick - s.latestTick) * p.quantum
    decreases |ops|
  {
    hide After, Grants, Served, Total, TickAt;
    if m == |ops| {
      assert ops[..m] == ops;
    } else {
      var init, op := ops[..|ops| - 1], ops[|ops| - 1];
      assert forall i | m <= i <= |init| :: ops[..i] == init[..i];
      assert init[..|init|] == init;
      NothingIsLost(p, init, m);
      HistoryNext(p, ops);
      var s, u := After(p, ops[..m]), After(p, init);
      var (t, g) := Served(p, u, op);
      ServedSpendsAll(p, u, op);
      TotalOfOneMore(Grants(p, init), g);
      TicksAdd(s.latestTick, u.latestTick, t.latestTick, p.quantum);
    }
  }

  lemma TotalOfOneMore(gs: seq<Grant>, g: Grant)
    ensures Total(gs + [g]) == Total(gs) + g.tokens
  {
    assert (gs + [g])[..|gs|] == gs;
  }

  /** What is granted for use at a given tick or later. */
  function UsableFrom(gs: seq<Grant>, from: int): int {
    if gs == [] then 0 else
      var g := gs[|gs| - 1];
      UsableFrom(gs[..|gs| - 1], from) + if from <= g.release then g.tokens else 0
  }

  /** What may be used from one tick to another. */
  function UsableIn(gs: seq<Grant>, from: int, to: int): int {
    if gs == [] then 0 else
      var g := gs[|gs| - 1];
      UsableIn(gs[..|gs| - 1], from, to) + if from <= g.release <= to then g.tokens else 0
  }

  lemma {:induction false} UsableInIsPart(gs: seq<Grant>, from: int, to: int)
    requires forall i | 0 <= i < |gs| :: 0 <= gs[i].tokens
    ensures 0 <= UsableIn(gs, from, to) <= UsableFrom(gs, from)
    decreases |gs|
  {
    if gs != [] {
      UsableInIsPart(gs[..|gs| - 1], from, to);
    }
  }

  /** The larger of a full bucket and the largest request. */
  function Burst(p: Settings, largest: int): int {
    if largest < p.capacity then p.capacity else largest
  }

  predicate Started(gs: seq<Grant>, from: int) {
    exists i :: 0 <= i < |gs| && 0 < gs[i].tokens && from <= gs[i].release
  }

  lemma StartedNext(gs: seq<Grant>, g: Grant, from: int)
    requires 0 <= g.tokens
    ensures Started(gs + [g], from) <==> Started(gs, from) || (0 < g.tokens && from <= g.release)
    ensures UsableFrom(gs + [g], from) == UsableFrom(gs, from) + if from <= g.release then g.tokens else 0
  {
    var all := gs + [g];
    assert all[..|gs|] == gs && all[|gs|] == g;
    if Started(gs, from) {
      var i :| 0 <= i < |gs| && 0 < gs[i].tokens && from <= gs[i].release;
      assert all[i] == gs[i];
    }
  }

  /** Once something is granted for use from a tick on, that and what is left stay
      within one burst and what accrues from that tick. */
  predicate BurstInv(p: Settings, s: Level, gs: seq<Grant>, largest: int, from: int) {
    if Started(gs, from) then
      UsableFrom(gs, from) + s.availableTokens <= Burst(p, largest) + Accrued(p, s.latestTick - from + 1)
    else
      UsableFrom(gs, from) == 0
  }

  /** What a first grant for use from a tick on can be: a full bucket, or a request
      that waits for that tick. */
  lemma FirstGrantIsBurst(p: Settings, s: Level, op: Operation, largest: int, from: int)
    requires ValidSettings(p) && s.availableTokens <= p.capacity && op.count <= largest
    ensures var (u, g) := Served(p, s, op);
            0 < g.tokens && from <= g.release ==>
              g.tokens + u.availableTokens <= Burst(p, largest) + Accrued(p, u.latestTick - from + 1)
  {
    var (u, g) := Served(p, s, op);
    ServedCases(p, s, op);
    TokensWithinCount(p, s, op);
    hide TickAt, Served;
    if 0 < g.tokens && from <= g.release {
      var avail := u.availableTokens;
      AccruedOfNone(p);
      if from - 1 <= u.latestTick {
        AccruedGrows(p, 0, u.latestTick - from + 1);
      } else {
        ReleaseTickOfNone(p, u.latestTick);
        ReleaseTickOfSome(p, avail, u.latestTick);
        ReleaseTickIsLeast(p, avail, u.latestTick, from - 1);
        AccruedAdds(p, from - 1 - u.latestTick, u.latestTick - from + 1);
      }
      hide Accrued, ReleaseTick;
    }
  }

  lemma TokensWithinCount(p: Settings, s: Level, op: Operation)
    requires ValidSettings(p)
    ensures var g := Served(p, s, op).1; 0 < g.tokens ==> g.tokens <= op.count
  {
    hide TickAt, Accrued, ReleaseTick;
  }

  lemma CallKeepsBurst(p: Settings, s: Level, gs: seq<Grant>, op: Operation, largest: int, from: int)
    requires ValidSettings(p) && s.availableTokens <= p.capacity && op.count <= largest
    requires BurstInv(p, s, gs, largest, from)
    ensures BurstInv(p, Served(p, s, op).0, gs + [Served(p, s, op).1], largest, from)
  {
    var (u, g) := Served(p, s, op);
    ServedSpends(p, s, op);
    FirstGrantIsBurst(p, s, op, largest, from);
    StartedNext(gs, g, from);
    AccruedAdds(p, s.latestTick - from + 1, u.latestTick - s.latestTick);
    hide Served, Accrued, Started, UsableFrom, Burst;
  }

  /** No call asks for more. */
  predicate AtMost(ops: seq<Operation>, largest: int) {
    forall i | 0 <= i < |ops| :: ops[i].count <= largest
  }

  lemma {:induction false} HistoryKeepsBurst(p: Settings, ops: seq<Operation>, largest: int, from: int)
    requires ValidSettings(p) && AtMost(ops, largest)
    ensures BurstInv(p, After(p, ops), Grants(p, ops), largest, from)
    decreases |ops|
  {
    if ops != [] {
      var init := ops[..|ops| - 1];
      HistoryKeepsBurst(p, init, largest, from);
      NeverOverfull(p, init);
      CallKeepsBurst(p, After(p, init), Grants(p, init), ops[|ops| - 1], largest, from);
      hide BurstInv, Served;
    }
  }

  /** What was just granted, and the debt, have accrued by the release tick. */
  lemma LastGrantCovers(p: Settings, s: Level, op: Operation, from: int)
    requires ValidSettings(p)
    ensures var (u, g) := Served(p, s, op);
            0 < g.tokens ==>
              Accrued(p, u.latestTick - from + 1) - u.availableTokens <= Accrued(p, g.release - from + 1)
  {
    var (u, g) := Served(p, s, op);
    ServedCases(p, s, op);
    ReleaseTickCovers(p, u.availableTokens, u.latestTick);
    AccruedOfNone(p);
    AccruedAdds(p, u.latestTick - from + 1, g.release - u.latestTick);
    hide Served, Accrued, ReleaseTick, TickAt;
  }

  lemma {:induction false} GrantsNonnegative(p: Settings, ops: seq<Operation>)
    requires ValidSettings(p)
    ensures forall i | 0 <= i < |ops| :: 0 <= Grants(p, ops)[i].tokens
    decreases |ops|
  {
    if ops != [] {
      GrantsNonnegative(p, ops[..|ops| - 1]);
      ServedSpends(p, After(p, ops[..|ops| - 1]), ops[|ops| - 1]);
      hide Served;
    }
  }

  lemma UsableInNext(gs: seq<Grant>, g: Grant, from: int, to: int)
    ensures UsableIn(gs + [g], from, to) == UsableIn(gs, from, to) + if from <= g.release <= to then g.tokens else 0
  {
    assert (gs + [g])[..|gs|] == gs;
  }

  /** If the last call granted something for use in the stretch, all that is usable
      in it is within the burst. */
  lemma LastGrantInBurst(p: Settings, ops: seq<Operation>, largest: int, from: int, to: int)
    requires ValidSettings(p) && AtMost(ops, largest) && ops != []
    ensures var g := Served(p, After(p, ops[..|ops| - 1]), ops[|ops| - 1]).1;
            0 < g.tokens && from <= g.release <= to ==>
              UsableIn(Grants(p, ops), from, to) <= Burst(p, largest) + Accrued(p, to - from + 1)
  {
    hide After, Grants, Served, Accrued, Started, UsableFrom, Burst, AtMost, UsableIn;
    var u := After(p, ops[..|ops| - 1]);
    var (t, g) := Served(p, u, ops[|ops| - 1]);
    if 0 < g.tokens && from <= g.release <= to {
      HistoryKeepsBurst(p, ops, largest, from);
      HistoryNext(p, ops);
      StartedNext(Grants(p, ops[..|ops| - 1]), g, from);
      GrantsNonnegative(p, ops);
      UsableInIsPart(Grants(p, ops), from, to);
      LastGrantCovers(p, u, ops[|ops| - 1], from);
      AccruedGrows(p, g.release - from + 1, to - from + 1);
    }
  }

  lemma NoBurst(p: Settings, largest: int, from: int, to: int)
    requires ValidSettings(p) && from <= to
    ensures UsableIn(Grants(p, []), from, to) <= Burst(p, largest) + Accrued(p, to - from + 1)
  {
    AccruedOfNone(p);
    AccruedGrows(p, 0, to - from + 1);
    hide Accrued, Served;
  }

  /** One grant more, which is within the burst if it can be used in the stretch. */
  lemma OneMoreInBurst(gs: seq<Grant>, g: Grant, from: int, to: int, bound: int)
    requires 0 <= g.tokens && UsableIn(gs, from, to) <= bound
    requires 0 < g.tokens && from <= g.release <= to ==> UsableIn(gs + [g], from, to) <= bound
    ensures UsableIn(gs + [g], from, to) <= bound
  {
    UsableInNext(gs, g, from, to);
    hide UsableIn;
  }

  /** Over any stretch of ticks no more can be used than one burst and what accrues
      meanwhile, however long the bucket was idle and whatever debt it ran into. */
  lemma {:induction false} BurstIsBounded(p: Settings, ops: seq<Operation>, largest: int, from: int, to: int)
    requires ValidSettings(p) && AtMost(ops, largest) && from <= to
    ensures UsableIn(Grants(p, ops), from, to) <= Burst(p, largest) + Accrued(p, to - from + 1)
    decreases |ops|
  {
    hide Served, Accrued, After, Burst, Grants, UsableIn, ValidSettings;
    if ops == [] {
      NoBurst(p, largest, from, to);
    } else {
      var init, op := ops[..|ops| - 1], ops[|ops| - 1];
      BurstIsBounded(p, init, largest, from, to);
      LastGrantInBurst(p, ops, largest, from, to);
      HistoryNext(p, ops);
      ServedSpends(p, After(p, init), op);
      OneMoreInBurst(Grants(p, init), Served(p, After(p, init), op).1, from, to,
                     Burst(p, largest) + Accrued(p, to - from + 1));
    }
  }
}
