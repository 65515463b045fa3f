/** The server: its configuration, its mastership, its resources, and the
    requests that it answers. */
module Servers {
  import opened Store
  import opened Algorithms
  import opened Resources
  import opened Configuration
  import opened Schedules
  import opened Wire

  /** What a client's message says about one resource. */
  datatype Ask = Ask(resID: string, has: real, wants: real)

  datatype ResourceResponse = ResourceResponse(id: string, gets: WireLease, safeCapacity: Option<real>)

  /** A server that is not the master says who is, if it knows. The server
      panics if no template applies to a resource. */
  datatype Response =
    | Redirect(master: Option<string>)
    | Granted(responses: seq<ResourceResponse>)
    | Panicked

  datatype LoadOutcome = Rejected(error: Error) | StartsElection | AllReloaded | LoadPanicked

  /** A client counts as one subclient. */
  function RequestsOf(client: string, asks: seq<Ask>): (qs: seq<ClientRequest>)
    ensures |qs| == |asks|
    ensures forall i | 0 <= i < |qs| ::
              qs[i] == ClientRequest(client, asks[i].resID, asks[i].has, asks[i].wants, 1)
  {
    if asks == [] then [] else
      var ask := asks[|asks| - 1];
      RequestsOf(client, asks[..|asks| - 1]) + [ClientRequest(client, ask.resID, ask.has, ask.wants, 1)]
  }

  method BuildRequests(client: string, asks: seq<Ask>) returns (requests: seq<ClientRequest>)
    ensures requests == RequestsOf(client, asks)
  {
    requests := [];
    for n := 0 to |asks|
      invariant requests == RequestsOf(client, asks[..n])
    {
      assert asks[..n + 1][..n] == asks[..n];
      requests := requests + [ClientRequest(client, asks[n].resID, asks[n].has, asks[n].wants, 1)];
    }
    assert asks[..|asks|] == asks;
  }

  /** Every resource that a request names exists or has a template. */
  predicate Creatable(rs: View, qs: seq<ClientRequest>, lookup: string -> Option<Template>) {
    forall q | q in qs :: q.resID in rs || lookup(q.resID).Some?
  }

  /** The resources that a request names exist from then on. */
  function Created(rs: View, qs: seq<ClientRequest>, lookup: string -> Option<Template>, becameMasterAt: int): (t: View)
    requires Creatable(rs, qs, lookup)
    ensures forall q | q in qs :: q.resID in t
    ensures rs.Keys <= t.Keys && forall id | id in t :: id in rs || lookup(id).Some?
  {
    if qs == [] then rs else
      assert qs == qs[..|qs| - 1] + [qs[|qs| - 1]];
      var id, t := qs[|qs| - 1].resID, Created(rs, qs[..|qs| - 1], lookup, becameMasterAt);
      if id in t then t else t[id := NewState(lookup(id).value, becameMasterAt)]
  }

  lemma NoneCreated(rs: View, lookup: string -> Option<Template>, becameMasterAt: int)
    ensures Creatable(rs, [], lookup) && Created(rs, [], lookup, becameMasterAt) == rs
  {
  }

  lemma CreatedNext(rs: View, qs: seq<ClientRequest>, n: nat, lookup: string -> Option<Template>, becameMasterAt: int)
    requires n < |qs| && Creatable(rs, qs[..n], lookup)
    ensures var id, t := qs[n].resID, Created(rs, qs[..n], lookup, becameMasterAt);
            if id !in t && lookup(id) == None then !Creatable(rs, qs, lookup) else
              && Creatable(rs, qs[..n + 1], lookup)
              && Created(rs, qs[..n + 1], lookup, becameMasterAt) ==
                 if id in t then t else t[id := NewState(lookup(id).value, becameMasterAt)]
  {
    hide NewState;
    var id, t := qs[n].resID, Created(rs, qs[..n], lookup, becameMasterAt);
    assert qs[n] in qs && qs[..n + 1] == qs[..n] + [qs[n]];
    if id in t || lookup(id).Some? {
      assert Creatable(rs, qs[..n + 1], lookup);
      hide Creatable;
      assert qs[..n + 1][..n] == qs[..n];
    }
  }

  /** The response to a decided request, read off when all are decided; by
      `SafeCapacityStays` it does not matter when. */
  ghost function ResponseTo(rs: View, item: Item): ResourceResponse {
    ResourceResponse(item.id, OnWire(item.lease),
                     if item.id in rs && ValidState(rs[item.id]) then SafeOf(rs[item.id]) else None)
  }

  ghost function Responses(rs: View, items: seq<Item>): (responses: seq<ResourceResponse>)
    ensures |responses| == |items|
    ensures forall i | 0 <= i < |items| :: responses[i] == ResponseTo(rs, items[i])
  {
    if items == [] then [] else Responses(rs, items[..|items| - 1]) + [ResponseTo(rs, items[|items| - 1])]
  }

  class Server {
    const matcher: Matcher
    var resources: map<string, Resource>
    var isMaster: bool
    var becameMasterAt: int
    var currentMaster: string
    var config: Option<Repository>

    /** There is no configuration yet, or a valid one. */
    ghost predicate Configured()
      reads this`config
    {
      config.Some? ==> ValidRepository(matcher, config.value)
    }

    ghost predicate Valid()
      reads this`resources, resources.Values, set r | r in resources.Values :: r.store
    {
      && (forall id | id in resources :: resources[id].Valid() && resources[id].id == id)
      && (forall i, j | i in resources && j in resources && i != j ::
            resources[i] != resources[j] && resources[i].store != resources[j].store)
    }

    /** The template that applies to a resource. */
    ghost function Lookup(): (lookup: string -> Option<Template>)
      reads this`config
      ensures forall id :: lookup(id) == if config.Some? then TemplateFor(matcher, config.value, id) else None
    {
      var c, m := config, matcher;
      id => if c.Some? then TemplateFor(m, c.value, id) else None
    }

    ghost predicate IsView(ids: set<string>, rs: View)
      requires ids <= resources.Keys
      reads this`resources, resources.Values, set r | r in resources.Values :: r.store
    {
      rs.Keys == ids && forall id | id in ids :: rs[id] == resources[id].AsState()
    }

    lemma {:induction false} ViewExists(ids: set<string>)
      requires ids <= resources.Keys
      ensures exists rs :: IsView(ids, rs)
      decreases |ids|
    {
      if ids == {} {
        assert IsView(ids, map[]);
      } else {
        var id :| id in ids;
        ViewExists(ids - {id});
        var rs :| IsView(ids - {id}, rs);
        assert IsView(ids, rs[id := resources[id].AsState()]);
      }
    }

    /** The state of every resource, as values. */
    ghost function AsView(): (rs: View)
      reads this`resources, resources.Values, set r | r in resources.Values :: r.store
      ensures IsView(resources.Keys, rs)
    {
      ViewExists(resources.Keys);
      var rs :| IsView(resources.Keys, rs);
      rs
    }

    lemma ViewIsServable(qs: seq<ClientRequest>)
      requires Valid() && forall q | q in qs :: q.resID in resources && 1 <= q.subclients
      ensures Servable(AsView(), qs)
    {
      hide ValidState;
    }

    constructor (matcher: Matcher)
      ensures Valid() && Configured() && AsView() == map[] && !isMaster && becameMasterAt == 0 && config == None
      ensures this.matcher == matcher
    {
      resources, isMaster, becameMasterAt, currentMaster := map[], false, 0, "";
      this.matcher, config := matcher, None;
    }

    /** A new master starts with no resources; so does one that lost mastership.
        Elections start with the first configuration. */
    method HandleElectionOutcome(isMaster: bool, now: int)
      requires Valid() && config.Some?
      modifies this
      ensures Valid() && AsView() == map[] && this.isMaster == isMaster
      ensures becameMasterAt == if isMaster then now else 0
      ensures currentMaster == old(currentMaster) && config == old(config)
    {
      this.isMaster := isMaster;
      becameMasterAt := if isMaster then now else 0;
      resources := map[];
    }

    /** Without a template for a new resource the server panics. */
    method GetOrCreateResource(id: string) returns (res: Resource?)
      requires Valid()
      modifies this`resources
      ensures Valid()
      ensures res == null <==> id !in old(resources) && Lookup()(id) == None
      ensures res != null ==> id in resources && res == resources[id]
      ensures forall i | i in old(resources) :: i in resources && resources[i] == old(resources[i])
      ensures forall i | i in resources && i !in old(resources) :: fresh(resources[i]) && fresh(resources[i].store)
      ensures AsView() ==
              if id in old(AsView()) || Lookup()(id) == None then old(AsView())
              else old(AsView())[id := NewState(Lookup()(id).value, becameMasterAt)]
    {
      hide ValidState, TemplateFor, NewState;
      hide Resource.Valid, Resource.AsState, Server.AsView, Server.Valid, Server.Lookup;
      ViewKeys();
      if id in resources {
        return resources[id];
      }
      if config == None {
        return null;
      }
      var template := FindConfig(matcher, config.value, id);
      if template == None {
        return null;
      }
      res := Create(id, template.value);
    }

    lemma ViewKeys()
      ensures AsView().Keys == resources.Keys
    {
    }

    method Create(id: string, template: Template) returns (res: Resource)
      requires Valid() && id !in resources
      modifies this`resources
      ensures Valid() && fresh(res) && fresh(res.store)
      ensures resources == old(resources)[id := res]
      ensures AsView() == old(AsView())[id := NewState(template, becameMasterAt)]
    {
      hide ValidState, Resource.Valid, Resource.AsState, NewState, Server.AsView;
      res := new Resource(id, template, becameMasterAt);
      assert forall i | i in resources :: resources[i] != res && resources[i].store != res.store;
      Add(id, res);
    }

    method Add(id: string, res: Resource)
      requires Valid() && id !in resources && res.Valid() && res.id == id
      requires forall i | i in resources :: resources[i] != res && resources[i].store != res.store
      modifies this`resources
      ensures Valid() && resources == old(resources)[id := res]
      ensures AsView() == old(AsView())[id := res.AsState()]
    {
      hide ValidState, Resource.Valid, Resource.AsState, Server.AsView;
      resources := resources[id := res];
    }

    /** The view moves where a single resource does. */
    twostate lemma ViewMoves(id: string)
      requires id in resources && resources == old(resources)
      requires forall i | i in resources && i != id :: resources[i].AsState() == old(resources[i].AsState())
      ensures AsView() == old(AsView())[id := resources[id].AsState()]
    {
      hide Resource.AsState, Server.AsView;
    }

    /** One of the concurrent decisions of a request. */
    method DecideOne(q: ClientRequest, now: int) returns (item: Item)
      requires Valid() && q.resID in resources && Servable(AsView(), [q])
      modifies resources[q.resID].store
      ensures Valid() && AsView() == Served(old(AsView()), q, now)
      ensures item == ItemOf(old(AsView()), q, now)
    {
      hide Decided, Decision, ValidState, Resource.Valid, Resource.AsState, Server.AsView, Server.IsView;
      assert q in [q];
      ViewAt(q.resID);
      var res := resources[q.resID];
      var lease := res.Decide(AsRequest(q), now);
      item := Item(res.id, lease);
      ViewMoves(q.resID);
    }

    /** Creates the resources that a request names. */
    method CreateResources(qs: seq<ClientRequest>) returns (ok: bool)
      requires Valid()
      modifies this`resources
      ensures Valid()
      ensures ok <==> Creatable(old(AsView()), qs, Lookup())
      ensures ok ==> AsView() == Created(old(AsView()), qs, Lookup(), becameMasterAt)
      ensures forall i | i in old(resources) :: i in resources && resources[i] == old(resources[i])
      ensures forall i | i in resources && i !in old(resources) :: fresh(resources[i]) && fresh(resources[i].store)
    {
      hide ValidState, Resource.Valid, Resource.AsState, NewState;
      hide Server.AsView, Server.IsView, Server.Lookup, Server.Valid, Creatable, Created;
      ghost var before, lookup := AsView(), Lookup();
      NoneCreated(before, lookup, becameMasterAt);
      for n := 0 to |qs|
        invariant Valid() && Creatable(before, qs[..n], lookup)
        invariant AsView() == Created(before, qs[..n], lookup, becameMasterAt)
        invariant forall i | i in old(resources) :: i in resources && resources[i] == old(resources[i])
        invariant forall i | i in resources && i !in old(resources) :: fresh(resources[i]) && fresh(resources[i].store)
      {
        CreatedNext(before, qs, n, lookup, becameMasterAt);
        ViewKeys();
        var res := GetOrCreateResource(qs[n].resID);
        if res == null {
          return false;
        }
      }
      assert qs[..|qs|] == qs;
      ok := true;
    }

    /** Every request is decided in its own goroutine, in an order that nothing
        fixes; the items arrive in that order. */
    method DecideAll(qs: seq<ClientRequest>, now: int) returns (items: seq<Item>)
      requires Valid() && Servable(AsView(), qs)
      modifies set r | r in resources.Values :: r.store
      ensures Valid() && exists order: seq<ClientRequest> :: InOrder(old(AsView()), qs, order, AsView(), items, now)
    {
      ghost var before, order := AsView(), [];
      hide ValidState, Resource.Valid, Resource.AsState, Servable, Underway;
      NoneServed(before, qs, now);
      items := [];
      var pending := qs;
      while pending != []
        invariant Valid() && Underway(before, qs, order, pending, AsView(), items, now)
        decreases |pending|
      {
        var n :| 0 <= n < |pending|;
        OneServed(before, qs, order, pending, n, AsView(), items, now);
        var item := DecideOne(pending[n], now);
        order := order + [pending[n]];
        pending, items := pending[..n] + pending[n + 1..], items + [item];
      }
      AllServed(before, qs, order, AsView(), items, now);
    }

    /** Creates the resources and decides on them; nothing if the server panics. */
    method GetAllCapacity(qs: seq<ClientRequest>, now: int) returns (items: Option<seq<Item>>)
      requires Valid() && forall q | q in qs :: 1 <= q.subclients
      modifies this`resources, set r | r in resources.Values :: r.store
      ensures Valid()
      ensures items.Some? <==> Creatable(old(AsView()), qs, Lookup())
      ensures items.Some? ==>
                exists order: seq<ClientRequest> ::
                  InOrder(Created(old(AsView()), qs, Lookup(), becameMasterAt), qs, order, AsView(), items.value, now)
    {
      hide Creatable, Server.Lookup;
      var ok := CreateResources(qs);
      if !ok {
        return None;
      }
      ViewIsServable(qs);
      hide ValidState, Resource.Valid, Resource.AsState, NewState;
      var all := DecideAll(qs, now);
      items := Some(all);
    }

    lemma ViewAt(id: string)
      requires Valid() && id in resources
      ensures id in AsView() && AsView()[id] == resources[id].AsState() && ValidState(AsView()[id])
    {
      hide Resource.AsState, Server.AsView;
    }

    method RespondTo(item: Item) returns (response: ResourceResponse)
      requires Valid() && item.id in resources
      ensures response == ResponseTo(old(AsView()), item)
    {
      hide ValidState, Resource.AsState, SafeOf, Server.AsView, Server.IsView;
      ViewAt(item.id);
      ghost var state := AsView()[item.id];
      var safe := resources[item.id].SafeCapacity();
      assert safe == SafeOf(state);
      response := ResourceResponse(item.id, OnWire(item.lease), safe);
    }

    /** Puts the granted leases and the safe capacities into responses. */
    method Respond(items: seq<Item>) returns (responses: seq<ResourceResponse>)
      requires Valid() && forall item | item in items :: item.id in resources
      ensures responses == Responses(old(AsView()), items)
    {
      hide Resource.Valid, Resource.AsState, ResponseTo, Server.AsView;
      responses := [];
      for n := 0 to |items|
        invariant Valid() && AsView() == old(AsView())
        invariant responses == Responses(old(AsView()), items[..n])
      {
        assert items[..n + 1][..n] == items[..n];
        var response := RespondTo(items[n]);
        responses := responses + [response];
      }
      assert items[..|items|] == items;
    }

    /** Answers requests as the master; nothing if the server panics. */
    method Answer(qs: seq<ClientRequest>, now: int) returns (responses: Option<seq<ResourceResponse>>)
      requires Valid() && forall q | q in qs :: 1 <= q.subclients
      modifies this`resources, set r | r in resources.Values :: r.store
      ensures Valid()
      ensures responses.Some? <==> Creatable(old(AsView()), qs, Lookup())
      ensures responses.Some? ==>
                var created := Created(old(AsView()), qs, Lookup(), becameMasterAt);
                && AnsweredInSomeOrder(created, qs, AsView(), responses.value, now)
                && forall client | (forall q | q in qs :: q.client == client) ::
                     TellsRecord(created, client, qs, AsView(), responses.value, now)
    {
      hide Server.Lookup, Server.AsView, Creatable, Created, Responses, ServedAll, Servable;
      hide Resource.Valid, Resource.AsState, Server.Valid, ValidView, InOrder, OrderFree, Server.IsView;
      var items := GetAllCapacity(qs, now);
      if items == None {
        return None;
      }
      ghost var created := Created(old(AsView()), qs, Lookup(), becameMasterAt);
      ghost var order :| InOrder(created, qs, order, AsView(), items.value, now);
      ghost var t := AsView();
      InOrderMeans(created, qs, order, t, items.value, now);
      ViewKeys();
      var all := Respond(items.value);
      assert all == Responses(t, items.value);
      AnsweredFrom(created, qs, order, t, items.value, now);
      forall client | forall q | q in qs :: q.client == client
        ensures TellsRecord(created, client, qs, t, Responses(t, items.value), now)
      {
        RecordIsTold(created, client, qs, order, t, items.value, now);
      }
      hide AnsweredInSomeOrder, TellsRecord;
      responses := Some(all);
    }

    /** The answer of the master; any other server redirects and changes nothing. */
    method GetCapacity(client: string, asks: seq<Ask>, now: int) returns (out: Response)
      requires Valid()
      modifies this`resources, set r | r in resources.Values :: r.store
      ensures Valid()
      ensures !isMaster ==>
              && AsView() == old(AsView())
              && out == Redirect(if currentMaster != "" then Some(currentMaster) else None)
      ensures isMaster ==>
              var qs := RequestsOf(client, asks);
              if Creatable(old(AsView()), qs, Lookup()) then
                && out.Granted?
                && var created := Created(old(AsView()), qs, Lookup(), becameMasterAt);
                   && AnsweredInSomeOrder(created, qs, AsView(), out.responses, now)
                   && TellsRecord(created, client, qs, AsView(), out.responses, now)
              else
                out == Panicked
    {
      hide Server.Lookup, Server.AsView, Creatable, Created, AnsweredInSomeOrder, TellsRecord;
      hide Resource.Valid, Resource.AsState, Server.Valid, Server.IsView;
      if !isMaster {
        return Redirect(if currentMaster != "" then Some(currentMaster) else None);
      }
      var requests := BuildRequests(client, asks);
      var responses := Answer(requests, now);
      out := if responses == None then Panicked else Granted(responses.value);
    }

    method ReleaseOne(client: string, id: string)
      requires Valid() && id in resources
      modifies resources[id].store
      ensures Valid()
      ensures AsView() == old(AsView())[id := old(AsView())[id].(leases := old(AsView())[id].leases - {client})]
    {
      hide ValidState, Resource.Valid, Resource.AsState, Server.AsView, Server.IsView;
      ViewAt(id);
      resources[id].Release(client);
      ViewMoves(id);
    }

    /** Releases what the client holds of the resources it names, if the master
        knows them. */
    method ReleaseCapacity(client: string, ids: seq<string>) returns (master: Option<Option<string>>)
      requires Valid()
      modifies set r | r in resources.Values :: r.store
      ensures Valid()
      ensures !isMaster ==>
              && AsView() == old(AsView())
              && master == Some(if currentMaster != "" then Some(currentMaster) else None)
      ensures isMaster ==> master == None && AsView() == Released(old(AsView()), client, ids)
    {
      hide Resource.Valid, Server.AsView, Server.IsView, Server.Valid;
      if !isMaster {
        return Some(if currentMaster != "" then Some(currentMaster) else None);
      }
      ReleaseAll(client, ids);
      master := None;
    }

    method ReleaseAll(client: string, ids: seq<string>)
      requires Valid()
      modifies set r | r in resources.Values :: r.store
      ensures Valid() && AsView() == Released(old(AsView()), client, ids)
    {
      hide ValidState, Resource.Valid, Resource.AsState, Released;
      hide Server.AsView, Server.IsView, Server.Valid;
      ReleasedNone(old(AsView()), client);
      for n := 0 to |ids|
        invariant Valid() && AsView() == Released(old(AsView()), client, ids[..n])
      {
        ViewKeys();
        ReleasedNext(old(AsView()), client, ids, n);
        if ids[n] in resources {
          ReleaseOne(client, ids[n]);
        }
      }
      assert ids[..|ids|] == ids;
    }

    method LoadOne(id: string, template: Template, expiryTimes: map<string, int>)
      requires Valid() && id in resources
      modifies resources[id]
      ensures Valid()
      ensures AsView() == old(AsView())[id := Reloaded(old(AsView())[id], template, expiryTimes, id)]
    {
      hide ValidState, Resource.Valid, Resource.AsState, Server.AsView, Server.IsView;
      ViewAt(id);
      resources[id].LoadConfig(template, if id in expiryTimes then Some(expiryTimes[id]) else None);
      ViewMoves(id);
    }

    /** An invalid configuration changes nothing. The first one makes the server
        take part in the election; with any other, every known resource takes
        its new template, and the expiry that the parent server gave for it. */
    method LoadConfig(repository: Repository, expiryTimes: map<string, int>) returns (outcome: LoadOutcome)
      requires Valid() && Configured()
      modifies this`config, resources.Values
      ensures Valid() && Configured()
      ensures outcome.Rejected? <==> !ValidRepository(matcher, repository)
      ensures config == if outcome.Rejected? then old(config) else Some(repository)
      ensures outcome == StartsElection <==> !outcome.Rejected? && old(config) == None
      ensures outcome == LoadPanicked <==>
              !outcome.Rejected? && old(config).Some? && !AllHave(old(AsView()), Lookup())
      ensures outcome.Rejected? || outcome == StartsElection ==> AsView() == old(AsView())
      ensures outcome == AllReloaded ==> AreReloaded(old(AsView()), AsView(), Lookup(), expiryTimes)
    {
      hide ValidState, ValidRepository, TemplateFor, AreReloaded, AllHave;
      hide Resource.Valid, Resource.AsState, Server.AsView, Server.IsView, Server.Valid, Server.Lookup;
      var error := Validate(matcher, repository);
      if error.Some? {
        return Rejected(error.value);
      }
      var firstTime := config == None;
      config := Some(repository);
      if firstTime {
        return StartsElection;
      }
      var ok := ReloadAll(repository, expiryTimes);
      outcome := if ok then AllReloaded else LoadPanicked;
    }

    /** Reloads the resources, in any order, until one has no template. */
    method ReloadAll(repository: Repository, expiryTimes: map<string, int>) returns (ok: bool)
      requires Valid() && config == Some(repository)
      modifies resources.Values
      ensures Valid()
      ensures ok <==> AllHave(old(AsView()), Lookup())
      ensures ok ==> AreReloaded(old(AsView()), AsView(), Lookup(), expiryTimes)
    {
      hide ValidState, TemplateFor, Reloaded, PartlyReloaded, AllHave, AreReloaded;
      hide Resource.Valid, Resource.AsState, Server.AsView, Server.IsView, Server.Valid, Server.Lookup;
      ghost var before, lookup := AsView(), Lookup();
      ViewKeys();
      NoneReloaded(before, lookup, expiryTimes);
      var todo := resources.Keys;
      while todo != {}
        invariant Valid() && todo <= resources.Keys == before.Keys
        invariant PartlyReloaded(before, AsView(), todo, lookup, expiryTimes)
        decreases todo
      {
        var id :| id in todo;
        var template := FindConfig(matcher, repository, id);
        OneReloaded(before, AsView(), todo, id, lookup, expiryTimes);
        if template == None {
          return false;
        }
        LoadOne(id, template.value, expiryTimes);
        todo := todo - {id};
      }
      AllAreReloaded(before, AsView(), lookup, expiryTimes);
      ok := true;
    }
  }

  /** The resources still to do are as before, and the others reloaded. */
  ghost predicate PartlyReloaded(rs: View, t: View, todo: set<string>, lookup: string -> Option<Template>,
                                 expiryTimes: map<string, int>)
  {
    && t.Keys == rs.Keys
    && (forall id | id in rs && id !in todo :: lookup(id).Some?)
    && forall id | id in rs ::
         t[id] == if id in todo then rs[id] else Reloaded(rs[id], lookup(id).value, expiryTimes, id)
  }

  lemma NoneReloaded(rs: View, lookup: string -> Option<Template>, expiryTimes: map<string, int>)
    ensures PartlyReloaded(rs, rs, rs.Keys, lookup, expiryTimes)
  {
  }

  lemma OneReloaded(rs: View, t: View, todo: set<string>, id: string, lookup: string -> Option<Template>,
                    expiryTimes: map<string, int>)
    requires PartlyReloaded(rs, t, todo, lookup, expiryTimes) && id in todo && id in rs
    ensures id in t && (lookup(id) == None ==> !AllHave(rs, lookup))
    ensures lookup(id).Some? ==>
            var u := t[id := Reloaded(t[id], lookup(id).value, expiryTimes, id)];
            PartlyReloaded(rs, u, todo - {id}, lookup, expiryTimes)
  {
    hide Reloaded;
  }

  lemma AllAreReloaded(rs: View, t: View, lookup: string -> Option<Template>, expiryTimes: map<string, int>)
    requires PartlyReloaded(rs, t, {}, lookup, expiryTimes)
    ensures AllHave(rs, lookup) && AreReloaded(rs, t, lookup, expiryTimes)
  {
  }

  predicate AllHave(rs: View, lookup: string -> Option<Template>) {
    forall id | id in rs :: lookup(id).Some?
  }

  /** In t every resource has its template and expiry, and all else from rs. */
  predicate AreReloaded(rs: View, t: View, lookup: string -> Option<Template>, expiryTimes: map<string, int>) {
    && t.Keys == rs.Keys
    && forall id | id in rs ::
         && lookup(id).Some? && t[id].template == lookup(id).value
         && t[id].expiryTime == (if id in expiryTimes then Some(expiryTimes[id]) else None)
         && t[id].leases == rs[id].leases && t[id].learningModeEndTime == rs[id].learningModeEndTime
  }

  /** t and the responses are what serving the requests in some order yields; it
      might be the given one if no two requests for one resource disagree. */
  ghost predicate AnsweredInSomeOrder(rs: View, qs: seq<ClientRequest>, t: View, responses: seq<ResourceResponse>,
                                      now: int)
  {
    && (exists order, items :: InOrder(rs, qs, order, t, items, now) && responses == Responses(t, items))
    && Servable(rs, qs)
    && (OrderFree(rs, qs, now) ==>
          && t == ServedAll(rs, qs, now).0
          && exists items: seq<Item> ::
               multiset(items) == multiset(ServedAll(rs, qs, now).1) && responses == Responses(t, items))
  }

  function ResponseIds(responses: seq<ResourceResponse>): (ids: seq<string>)
    ensures |ids| == |responses| && forall i | 0 <= i < |ids| :: ids[i] == responses[i].id
  {
    if responses == [] then [] else
      ResponseIds(responses[..|responses| - 1]) + [responses[|responses| - 1].id]
  }

  /** The response tells the client what the server has on record for it. */
  ghost predicate IsAnswer(t: View, client: string, response: ResourceResponse) {
    && response.id in t && client in t[response.id].leases
    && var lease, template := t[response.id].leases[client], t[response.id].template;
       && response.gets.capacity == lease.has
       && 1_000_000_000 * response.gets.expiryTime <= lease.expiry < 1_000_000_000 * (response.gets.expiryTime + 1)
       && response.gets.refreshInterval == template.algorithm.refreshInterval
       && response.safeCapacity.Some?
       && if template.safeCapacity.Some? then response.safeCapacity == template.safeCapacity
          else response.safeCapacity.value * Count(Demands(t[response.id].leases)) == template.capacity
  }

  /** The resources asked for are answered, each as often as it is asked for. What
      is asked for once is told as it is on record; so is what is asked for again
      with the same demand, save by ProportionalShare outside the learning mode;
      and one of the answers for each resource tells it in any case. */
  ghost predicate TellsRecord(rs: View, client: string, qs: seq<ClientRequest>, t: View,
                              responses: seq<ResourceResponse>, now: int)
  {
    && multiset(ResponseIds(responses)) == multiset(Ids(qs))
    && (forall response | response in responses ::
          response.id in rs && (AskingAgainIsSafe(rs, qs, response.id, now) ==> IsAnswer(t, client, response)))
    && (forall q | q in qs :: exists response ::
          response in responses && response.id == q.resID && IsAnswer(t, client, response))
  }

  lemma SafeMeans(s: State, client: string)
    requires ValidState(s) && client in s.leases
    ensures SafeOf(s).Some?
    ensures if s.template.safeCapacity.Some? then SafeOf(s) == s.template.safeCapacity
            else SafeOf(s).value * Count(Demands(s.leases)) == s.template.capacity
  {
    CountOfNone(s.leases);
    hide Count;
  }

  lemma SettledIsAnswered(t: View, x: ClientRequest, item: Item, now: int)
    requires item.id == x.resID && Settled(t, x, item.lease, now)
    ensures IsAnswer(t, x.client, ResponseTo(t, item))
  {
    SafeMeans(t[x.resID], x.client);
    hide Count, Decision, ValidState, SafeOf;
  }

  lemma ResponseIsAnswer(rs: View, client: string, qs: seq<ClientRequest>, order: seq<ClientRequest>, t: View,
                         items: seq<Item>, k: nat, now: int)
    requires InOrder(rs, qs, order, t, items, now) && (forall q | q in qs :: q.client == client)
    requires k < |order| && StaysOnRecord(rs, order, k, now)
    ensures k < |items| && IsAnswer(t, client, Responses(t, items)[k])
  {
    hide ServedAll, IsAnswer, ResponseTo, Settled, Responses, StaysOnRecord, Servable;
    OrderHasSame(order, qs);
    assert order[k] in order;
    ItemStays(rs, order, k, now);
    SettledIsAnswered(t, order[k], items[k], now);
  }

  lemma SameIdsAreTold(rs: View, qs: seq<ClientRequest>, order: seq<ClientRequest>, t: View, items: seq<Item>,
                       now: int)
    requires InOrder(rs, qs, order, t, items, now)
    ensures ResponseIds(Responses(t, items)) == Ids(order) && multiset(Ids(order)) == multiset(Ids(qs))
  {
    hide ServedAll, Responses, ResponseIds, Ids, Servable;
    OrderAsksSame(order, qs);
    ItemIds(rs, order, now);
    ResponsesKeepIds(t, items);
  }

  lemma ResponseTells(rs: View, client: string, qs: seq<ClientRequest>, order: seq<ClientRequest>, t: View,
                      items: seq<Item>, k: nat, now: int)
    requires InOrder(rs, qs, order, t, items, now) && (forall q | q in qs :: q.client == client) && k < |items|
    ensures var response := Responses(t, items)[k];
            response.id in rs && (AskingAgainIsSafe(rs, qs, response.id, now) ==> IsAnswer(t, client, response))
  {
    hide ServedAll, IsAnswer, Responses, ResponseIds, Ids, AskingAgainIsSafe, StaysOnRecord, ValidView;
    SameIdsAreTold(rs, qs, order, t, items, now);
    var response := Responses(t, items)[k];
    assert ResponseIds(Responses(t, items))[k] == Ids(order)[k];
    assert order[k] in order && response.id == order[k].resID;
    if AskingAgainIsSafe(rs, qs, response.id, now) {
      SafeIsOnRecord(rs, qs, order, k, now);
      ResponseIsAnswer(rs, client, qs, order, t, items, k, now);
    }
  }

  lemma RequestIsTold(rs: View, client: string, qs: seq<ClientRequest>, order: seq<ClientRequest>, t: View,
                      items: seq<Item>, q: ClientRequest, now: int)
    requires InOrder(rs, qs, order, t, items, now) && (forall p | p in qs :: p.client == client) && q in qs
    ensures exists response ::
              response in Responses(t, items) && response.id == q.resID && IsAnswer(t, client, response)
  {
    OrderHasSame(order, qs);
    SameIdsAreTold(rs, qs, order, t, items, now);
    hide ServedAll, IsAnswer, Responses, ResponseIds, Ids, StaysOnRecord, Servable;
    var k := LastAsked(order, q.resID);
    LastIsOnRecord(rs, order, k, now);
    ResponseIsAnswer(rs, client, qs, order, t, items, k, now);
    assert ResponseIds(Responses(t, items))[k] == Ids(order)[k];
    assert Responses(t, items)[k] in Responses(t, items);
  }

  lemma RecordIsTold(rs: View, client: string, qs: seq<ClientRequest>, order: seq<ClientRequest>, t: View,
                     items: seq<Item>, now: int)
    requires InOrder(rs, qs, order, t, items, now) && forall q | q in qs :: q.client == client
    ensures TellsRecord(rs, client, qs, t, Responses(t, items), now)
  {
    hide InOrder, IsAnswer, Responses, ResponseIds, Ids, AskingAgainIsSafe;
    SameIdsAreTold(rs, qs, order, t, items, now);
    var responses := Responses(t, items);
    forall response | response in responses
      ensures response.id in rs && (AskingAgainIsSafe(rs, qs, response.id, now) ==> IsAnswer(t, client, response))
    {
      var k :| 0 <= k < |responses| && responses[k] == response;
      ResponseTells(rs, client, qs, order, t, items, k, now);
    }
    forall q | q in qs
      ensures exists response :: response in responses && response.id == q.resID && IsAnswer(t, client, response)
    {
      RequestIsTold(rs, client, qs, order, t, items, q, now);
    }
  }

  lemma ResponsesKeepIds(t: View, items: seq<Item>)
    ensures forall k | 0 <= k < |items| :: Responses(t, items)[k].id == items[k].id
  {
    hide Responses;
  }

  lemma AnsweredFrom(rs: View, qs: seq<ClientRequest>, order: seq<ClientRequest>, t: View, items: seq<Item>, now: int)
    requires InOrder(rs, qs, order, t, items, now)
    ensures AnsweredInSomeOrder(rs, qs, t, Responses(t, items), now)
  {
    hide InOrder, OrderFree, Responses, ServedAll, Servable;
    InOrderMeans(rs, qs, order, t, items, now);
  }

  function Released(rs: View, client: string, ids: seq<string>): (t: View)
    ensures t.Keys == rs.Keys
    ensures forall id | id in rs ::
              t[id] == if id in ids then rs[id].(leases := rs[id].leases - {client}) else rs[id]
  {
    if ids == [] then rs else
      var id, t := ids[|ids| - 1], Released(rs, client, ids[..|ids| - 1]);
      assert forall i | i in ids :: i in ids[..|ids| - 1] || i == id;
      if id in t then t[id := t[id].(leases := t[id].leases - {client})] else t
  }

  lemma ReleasedNone(rs: View, client: string)
    ensures Released(rs, client, []) == rs
  {
  }

  lemma ReleasedNext(rs: View, client: string, ids: seq<string>, n: nat)
    requires n < |ids|
    ensures var t := Released(rs, client, ids[..n]);
            Released(rs, client, ids[..n + 1]) ==
            if ids[n] in t then t[ids[n] := t[ids[n]].(leases := t[ids[n]].leases - {client})] else t
  {
    assert ids[..n + 1][..n] == ids[..n];
  }

  function Reloaded(s: State, template: Template, expiryTimes: map<string, int>, id: string): State {
    s.(template := template, expiryTime := if id in expiryTimes then Some(expiryTimes[id]) else None)
  }
}
