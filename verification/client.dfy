/** The client half of the lease protocol: what it claims, what it learns from a
    reply, and when it gives a lease up. */
module Clients {
  import opened Arithmetic
  import opened Store
  import opened Resources
  import opened Wire

  /** How many capacities wait for the user of a resource at most. */
  const CHANNEL_SIZE := 32

  /** A claimed resource, and the capacities on their way to its user. */
  datatype ClientResource =
    ClientResource(wants: real, priority: int, lease: Option<WireLease>, channel: seq<real>)

  datatype ResourceRequest = ResourceRequest(resourceId: string, priority: int, wants: real, has: Option<WireLease>)

  type Reply = (string, WireLease)

  /** What a request claims: all of the lease that the client still has a record
      of, whether or not it has run out. */
  function Claim(lease: Option<WireLease>): real {
    if lease.Some? then lease.value.capacity else 0.0
  }

  /** The lease is good up to its expiry instant; no lease counts as long expired. */
  predicate Lapsed(lease: Option<WireLease>, now: int) {
    Seconds(if lease.Some? then lease.value.expiryTime else 0) < now
  }

  const VERY_LONG_TIME := 3600

  function RefreshOf(res: ClientResource): int {
    if res.lease.Some? then res.lease.value.refreshInterval else 0
  }

  /** The capacity on record; none is told apart from zero. */
  function CapacityOf(res: ClientResource): real {
    if res.lease.Some? then res.lease.value.capacity else -1.0
  }

  /** A send that does not wait: a full channel drops it. */
  function Offered(channel: seq<real>, capacity: real): seq<real> {
    if |channel| < CHANNEL_SIZE then channel + [capacity] else channel
  }

  /** A send that waits: from a full channel the user takes the oldest first. */
  function Sent(channel: seq<real>, capacity: real): seq<real> {
    if |channel| < CHANNEL_SIZE then channel + [capacity] else channel[1..] + [capacity]
  }

  /** After a failed request a lapsed lease is given up. */
  function Kept(res: ClientResource, now: int): ClientResource {
    if Lapsed(res.lease, now) then res.(lease := None, channel := Sent(res.channel, 0.0)) else res
  }

  /** A reply replaces the lease, and the user hears of a change. */
  function Replaced(res: ClientResource, lease: WireLease): ClientResource {
    res.(lease := Some(lease),
         channel := if lease.capacity != CapacityOf(res) then Offered(res.channel, lease.capacity) else res.channel)
  }

  /** Replies for unknown resources are ignored; of several for one, the last counts. */
  function Refreshed(resources: map<string, ClientResource>, replies: seq<Reply>): map<string, ClientResource> {
    if replies == [] then resources else
      var (k, lease), rest := replies[|replies| - 1], Refreshed(resources, replies[..|replies| - 1]);
      if k in rest then rest[k := Replaced(rest[k], lease)] else rest
  }

  /** The least of an hour and all refresh intervals, zero for a missing lease. */
  ghost predicate IsLeastInterval(resources: map<string, ClientResource>, least: int) {
    && least <= 3600
    && (forall k | k in resources ::
          least <= if resources[k].lease == None then 0 else resources[k].lease.value.refreshInterval)
    && (|| least == 3600
        || exists k :: k in resources &&
             least == if resources[k].lease == None then 0 else resources[k].lease.value.refreshInterval)
  }

  /** Of the replies for a resource the last one counts, and it changes nothing
      but the lease, with all its times, and the channel. */
  lemma {:induction false} LastReplyCounts(resources: map<string, ClientResource>, replies: seq<Reply>, i: nat)
    requires i < |replies| && replies[i].0 in resources
    requires forall j | i < j < |replies| :: replies[j].0 != replies[i].0
    ensures var k, after := replies[i].0, Refreshed(resources, replies);
            && after.Keys == resources.Keys && after[k].lease == Some(replies[i].1)
            && after[k].wants == resources[k].wants && after[k].priority == resources[k].priority
    decreases |replies|
  {
    var init := replies[..|replies| - 1];
    OthersStay(resources, init);
    if i < |init| {
      LastReplyCounts(resources, init, i);
    }
  }

  lemma {:induction false} OthersStay(resources: map<string, ClientResource>, replies: seq<Reply>)
    ensures Refreshed(resources, replies).Keys == resources.Keys
    ensures forall k | k in resources ::
              && Refreshed(resources, replies)[k].wants == resources[k].wants
              && Refreshed(resources, replies)[k].priority == resources[k].priority
              && ((forall r | r in replies :: r.0 != k) ==> Refreshed(resources, replies)[k] == resources[k])
    decreases |replies|
  {
    if replies != [] {
      var init, last := replies[..|replies| - 1], replies[|replies| - 1];
      assert replies == init + [last];
      OthersStay(resources, init);
    }
  }

  class Client {
    const id: string
    /** In seconds. */
    const minimumRefreshInterval: int
    var resources: map<string, ClientResource>

    /** No channel holds more than its size. */
    predicate Valid()
      reads this
    {
      forall k | k in resources :: |resources[k].channel| <= CHANNEL_SIZE
    }

    constructor (id: string, minimumRefreshInterval: int)
      ensures Valid()
      ensures resources == map[] && this.id == id && this.minimumRefreshInterval == minimumRefreshInterval
    {
      this.id, this.minimumRefreshInterval, resources := id, minimumRefreshInterval, map[];
    }

    /** A resource can be claimed only once. */
    method AddResource(resourceId: string, wants: real, priority: int) returns (added: bool)
      requires Valid()
      modifies this
      ensures Valid()
      ensures added == (resourceId !in old(resources))
      ensures resources ==
              if added then old(resources)[resourceId := ClientResource(wants, priority, None, [])] else old(resources)
    {
      added := resourceId !in resources;
      if added {
        resources := resources[resourceId := ClientResource(wants, priority, None, [])];
      }
    }

    /** Forgets the resource; the server must be told if it was known. */
    method RemoveResource(resourceId: string) returns (tellServer: bool)
      requires Valid()
      modifies this
      ensures Valid()
      ensures tellServer == (resourceId in old(resources))
      ensures resources == old(resources) - {resourceId}
    {
      tellServer := resourceId in resources;
      resources := resources - {resourceId};
    }

    /** The user takes the oldest capacity, if any is there. */
    method Receive(resourceId: string) returns (capacity: Option<real>)
      requires Valid() && resourceId in resources
      modifies this
      ensures Valid()
      ensures var res := old(resources[resourceId]);
              if res.channel == [] then
                capacity == None && resources == old(resources)
              else
                && capacity == Some(res.channel[0])
                && resources == old(resources)[resourceId := res.(channel := res.channel[1..])]
    {
      var res := resources[resourceId];
      if res.channel == [] {
        return None;
      }
      capacity := Some(res.channel[0]);
      resources := resources[resourceId := res.(channel := res.channel[1..])];
    }

    /** The request names each resource once, with all that is on record. */
    method BuildRequest() returns (requests: seq<ResourceRequest>)
      ensures |requests| == |resources|
      ensures forall i, j | 0 <= i < j < |requests| :: requests[i].resourceId != requests[j].resourceId
      ensures forall q | q in requests :: IsRequestFor(q)
    {
      requests := [];
      var todo := resources.Keys;
      assert |todo| == |resources|;
      while todo != {}
        invariant todo <= resources.Keys && |requests| + |todo| == |resources|
        invariant forall i, j | 0 <= i < j < |requests| :: requests[i].resourceId != requests[j].resourceId
        invariant forall q | q in requests :: IsRequestFor(q) && q.resourceId !in todo
        decreases todo
      {
        var resourceId :| resourceId in todo;
        var res := resources[resourceId];
        requests := requests + [ResourceRequest(resourceId, res.priority, res.wants, res.lease)];
        todo := todo - {resourceId};
      }
    }

    predicate IsRequestFor(q: ResourceRequest)
      reads this
    {
      q.resourceId in resources &&
      var res := resources[q.resourceId]; q == ResourceRequest(q.resourceId, res.priority, res.wants, res.lease)
    }

    /** When the request failed, exactly the lapsed leases are given up, and
        their users will hear of zero; this waits for users with full channels. */
    method RequestFailed(now: int)
      requires Valid()
      modifies this
      ensures Valid() && resources.Keys == old(resources).Keys
      ensures forall k | k in resources :: resources[k] == Kept(old(resources)[k], now)
      ensures forall k | k in resources ::
                var was, res := old(resources)[k], resources[k];
                && res.wants == was.wants && res.priority == was.priority
                && if was.lease.Some? && now <= 1_000_000_000 * was.lease.value.expiryTime then res == was
                   else if was.lease == None && now <= 0 then res == was
                   else
                     && res.lease == None
                     && res.channel == (if |was.channel| < 32 then was.channel else was.channel[1..]) + [0.0]
    {
      var todo := resources.Keys;
      while todo != {}
        invariant todo <= resources.Keys == old(resources).Keys && Valid()
        invariant forall k | k in todo :: resources[k] == old(resources)[k]
        invariant forall k | k in resources && k !in todo :: resources[k] == Kept(old(resources)[k], now)
        decreases todo
      {
        var k :| k in todo;
        var res := resources[k];
        if Lapsed(res.lease, now) {
          if |res.channel| == CHANNEL_SIZE {
            res := res.(channel := res.channel[1..]);
          }
          resources := resources[k := res.(lease := None, channel := res.channel + [0.0])];
        }
        todo := todo - {k};
      }
    }

    /** When a reply came, each lease in it replaces what was on record, and the
        shortest refresh interval, but not less than the minimum, is next. */
    method RequestSucceeded(replies: seq<Reply>) returns (interval: int)
      requires Valid()
      modifies this
      ensures Valid() && resources == Refreshed(old(resources), replies)
      ensures exists least ::
                && interval == (if least < minimumRefreshInterval then minimumRefreshInterval else least)
                && IsLeastInterval(resources, least)
    {
      for i := 0 to |replies|
        invariant Valid() && resources == Refreshed(old(resources), replies[..i])
      {
        assert replies[..i + 1][..i] == replies[..i];
        var (k, lease) := replies[i];
        if k in resources {
          var res := resources[k];
          var oldCapacity := CapacityOf(res);
          res := res.(lease := Some(lease));
          if lease.capacity != oldCapacity && |res.channel| < CHANNEL_SIZE {
            res := res.(channel := res.channel + [lease.capacity]);
          }
          resources := resources[k := res];
        }
      }
      assert replies[..|replies|] == replies;
      interval := VERY_LONG_TIME;
      var todo := resources.Keys;
      while todo != {}
        invariant todo <= resources.Keys && interval <= VERY_LONG_TIME
        invariant forall k | k in resources && k !in todo :: interval <= RefreshOf(resources[k])
        invariant interval == VERY_LONG_TIME || exists k :: k in resources && interval == RefreshOf(resources[k])
        decreases todo
      {
        var k :| k in todo;
        interval := MinInt(interval, RefreshOf(resources[k]));
        todo := todo - {k};
      }
      assert IsLeastInterval(resources, interval);
      if interval < minimumRefreshInterval {
        interval := minimumRefreshInterval;
      }
    }
  }
}
