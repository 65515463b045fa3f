/** What the user of a client gets to know through the channel of a resource, over
    one batch of replies and over whole runs. */
module Notices {
  import opened Arithmetic
  import opened Resources
  import opened Wire
  import opened Clients

  // ---- One batch of replies ----

  /** What a user who knew one capacity knows after emptying the channel. */
  function Known(before: real, channel: seq<real>): real {
    if channel == [] then before else channel[|channel| - 1]
  }

  /** The changes of capacity of one resource, with the last capacity before them. */
  function Changes(before: real, replies: seq<Reply>, k: string): seq<real> {
    if replies == [] then [] else
      var (id, lease), all := replies[|replies| - 1], Changes(before, replies[..|replies| - 1], k);
      if id == k && lease.capacity != Known(before, all) then all + [lease.capacity] else all
  }

  /** Of the changes those get through that the channel has room for, from the
      first on; the others are lost. The capacity on record is the last one. */
  lemma {:induction false} FirstChangesGetThrough(resources: map<string, ClientResource>, replies: seq<Reply>,
                                                  k: string)
    requires k in resources && |resources[k].channel| <= CHANNEL_SIZE
    ensures k in Refreshed(resources, replies)
    ensures var res, after := resources[k], Refreshed(resources, replies)[k];
            var all := Changes(CapacityOf(res), replies, k);
            && after.channel == res.channel + all[..MinInt(|all|, CHANNEL_SIZE - |res.channel|)]
            && CapacityOf(after) == Known(CapacityOf(res), all)
            && (after == res || after.lease.Some?)
    decreases |replies|
  {
    if replies != [] {
      FirstChangesGetThrough(resources, replies[..|replies| - 1], k);
    }
  }

  /** A lease stays unless there is a reply; then there is one. */
  lemma {:induction false} RepliesGiveLeases(resources: map<string, ClientResource>, replies: seq<Reply>, k: string)
    requires k in resources
    ensures k in Refreshed(resources, replies)
    ensures if forall r | r in replies :: r.0 != k then Refreshed(resources, replies)[k] == resources[k]
            else Refreshed(resources, replies)[k].lease.Some?
    decreases |replies|
  {
    if replies != [] {
      var init, last := replies[..|replies| - 1], replies[|replies| - 1];
      assert replies == init + [last];
      RepliesGiveLeases(resources, init, k);
    }
  }

  /** A user who knew the claimed capacity, zero for none, knows it after any
      replies exactly when there was room for all the changes, or the last one
      that got through happens to be the last one that there was. Without any
      change, there must have been a lease, or no reply: see `FirstLeaseUnheard`. */
  lemma KeepsUpExactlyWhen(resources: map<string, ClientResource>, replies: seq<Reply>, k: string, before: real)
    requires k in resources && |resources[k].channel| <= CHANNEL_SIZE
    requires Known(before, resources[k].channel) == Claim(resources[k].lease)
    ensures k in Refreshed(resources, replies)
    ensures var res, after := resources[k], Refreshed(resources, replies)[k];
            var all, room := Changes(CapacityOf(res), replies, k), CHANNEL_SIZE - |res.channel|;
            Known(before, after.channel) == Claim(after.lease) <==>
            if all == [] then res.lease.Some? || forall r | r in replies :: r.0 != k
            else |all| <= room || all[|all| - 1] == Known(Claim(res.lease), all[..room])
  {
    FirstChangesGetThrough(resources, replies, k);
    RepliesGiveLeases(resources, replies, k);
  }

  /** A first lease of -1 counts as no change, and the user never hears of it. */
  lemma FirstLeaseUnheard(k: string, wants: real, lease: WireLease)
    requires lease.capacity == -1.0
    ensures var resources := map[k := ClientResource(wants, 0, None, [])];
            var after := Refreshed(resources, [(k, lease)]);
            k in after && after[k].channel == [] && Claim(after[k].lease) == -1.0
  {
    var resources := map[k := ClientResource(wants, 0, None, [])];
    assert [(k, lease)][..0] == [];
    assert Refreshed(resources, []) == resources;
  }

  /** With a full channel that ends in 5, a reply of 3 is lost. */
  lemma FullChannelLoses(k: string, wants: real, channel: seq<real>, before: real, recorded: WireLease,
                         lease: WireLease)
    requires |channel| == 32 && channel[31] == 5.0
    requires recorded.capacity == 5.0 && lease.capacity == 3.0
    ensures var resources := map[k := ClientResource(wants, 0, Some(recorded), channel)];
            var after := Refreshed(resources, [(k, lease)]);
            && Known(before, channel) == Claim(Some(recorded)) == 5.0
            && k in after && Known(before, after[k].channel) == 5.0 && Claim(after[k].lease) == 3.0
  {
    var resources := map[k := ClientResource(wants, 0, Some(recorded), channel)];
    assert [(k, lease)][..0] == [];
    assert Refreshed(resources, []) == resources;
  }

  // ---- Runs of replies, failures and users taking capacities ----

  /** What can happen to one claimed resource. */
  datatype Event =
    | Replied(lease: WireLease)
    | Failed(now: int)
    | Taken

  /** A resource, and what its user took from the channel last. */
  datatype Told = Told(res: ClientResource, taken: real)

  /** What the user knows after emptying the channel. */
  function Heard(t: Told): real {
    Known(t.taken, t.res.channel)
  }

  predicate UpToDate(t: Told) {
    Heard(t) == Claim(t.res.lease)
  }

  function Next(t: Told, e: Event): Told {
    match e
    case Replied(lease) => t.(res := Replaced(t.res, lease))
    case Failed(now) =>
      Told(Kept(t.res, now),
           if Lapsed(t.res.lease, now) && |t.res.channel| >= CHANNEL_SIZE then t.res.channel[0] else t.taken)
    case Taken =>
      if t.res.channel == [] then t
      else Told(t.res.(channel := t.res.channel[1..]), t.res.channel[0])
  }

  function After(t: Told, es: seq<Event>): Told {
    if es == [] then t else Next(After(t, es[..|es| - 1]), es[|es| - 1])
  }

  /** The replies for one resource, as events. */
  function RepliesFor(replies: seq<Reply>, k: string): seq<Event> {
    if replies == [] then [] else
      var (id, lease), rest := replies[|replies| - 1], RepliesFor(replies[..|replies| - 1], k);
      if id == k then rest + [Replied(lease)] else rest
  }

  /** The replies of one message are a part of a run. */
  lemma {:induction false} RepliesAreRun(resources: map<string, ClientResource>, replies: seq<Reply>, k: string,
                                         taken: real)
    requires k in resources
    ensures k in Refreshed(resources, replies)
    ensures After(Told(resources[k], taken), RepliesFor(replies, k)) == Told(Refreshed(resources, replies)[k], taken)
    decreases |replies|
  {
    if replies != [] {
      var init := replies[..|replies| - 1];
      var (id, lease) := replies[|replies| - 1];
      RepliesAreRun(resources, init, k, taken);
      var es := RepliesFor(init, k);
      assert (es + [Replied(lease)])[..|es|] == es;
    }
  }

  /** A reply that says something new and does not reach the channel: it is full,
      or the reply is a first lease of -1. */
  predicate Unheard(t: Told, e: Event) {
    && e.Replied? && e.lease.capacity != Claim(t.res.lease)
    && (|t.res.channel| >= CHANNEL_SIZE || e.lease.capacity == CapacityOf(t.res))
  }

  /** One event, from any state: a delivered change or a lapsed lease bring the
      user up to date; taking changes nothing; and another reply has to say what
      the user heard last. */
  lemma UpToDateNextExactlyWhen(t: Told, e: Event)
    ensures UpToDate(Next(t, e)) <==>
            match e
            case Replied(lease) =>
              || (lease.capacity != CapacityOf(t.res) && |t.res.channel| < CHANNEL_SIZE)
              || lease.capacity == Heard(t)
            case Failed(now) => Lapsed(t.res.lease, now) || UpToDate(t)
            case Taken => UpToDate(t)
  {
  }

  predicate UpToDateThroughout(t: Told, es: seq<Event>) {
    forall i | 0 <= i <= |es| :: UpToDate(After(t, es[..i]))
  }

  predicate NoneUnheard(t: Told, es: seq<Event>) {
    forall i | 0 <= i < |es| :: !Unheard(After(t, es[..i]), es[i])
  }

  lemma OneMoreEvent(t: Told, es: seq<Event>, e: Event)
    ensures After(t, es + [e]) == Next(After(t, es), e)
    ensures UpToDateThroughout(t, es) ==> UpToDate(After(t, es))
    ensures UpToDateThroughout(t, es + [e]) <==> UpToDateThroughout(t, es) && UpToDate(After(t, es + [e]))
    ensures NoneUnheard(t, es + [e]) <==> NoneUnheard(t, es) && !Unheard(After(t, es), e)
  {
    hide UpToDate, Unheard, Next;
    assert (es + [e])[..|es|] == es && (es + [e])[..|es| + 1] == es + [e] && es[..|es|] == es;
    assert forall i | 0 <= i <= |es| :: (es + [e])[..i] == es[..i];
  }

  lemma UnheardExactlyWhenLost(t: Told, e: Event)
    requires UpToDate(t)
    ensures UpToDate(Next(t, e)) <==> !Unheard(t, e)
  {
    UpToDateNextExactlyWhen(t, e);
  }

  /** The user is up to date all through a run if and only if no reply in it goes
      unheard. */
  lemma {:induction false} UpToDateThroughoutExactlyWhen(t: Told, es: seq<Event>)
    requires UpToDate(t)
    ensures UpToDateThroughout(t, es) <==> NoneUnheard(t, es)
    decreases |es|
  {
    if es != [] {
      hide UpToDate, UpToDateThroughout, NoneUnheard, Unheard;
      var init, e := es[..|es| - 1], es[|es| - 1];
      assert es == init + [e];
      OneMoreEvent(t, init, e);
      UpToDateThroughoutExactlyWhen(t, init);
      if UpToDateThroughout(t, init) {
        UnheardExactlyWhenLost(After(t, init), e);
      }
    }
  }

  /** The event neither changes the capacity on record nor finds the lease lapsed. */
  predicate Repeats(t: Told, e: Event) {
    && (e.Replied? ==> e.lease.capacity == CapacityOf(t.res))
    && (e.Failed? ==> !Lapsed(t.res.lease, e.now))
  }

  /** The first channel is what is left of the second. */
  predicate IsRestOf(left: seq<real>, was: seq<real>) {
    |left| <= |was| && left == was[|was| - |left|..]
  }

  lemma RepeatedEvent(t: Told, e: Event)
    requires Repeats(t, e)
    ensures Heard(Next(t, e)) == Heard(t) && CapacityOf(Next(t, e).res) == CapacityOf(t.res)
    ensures forall was | IsRestOf(t.res.channel, was) :: IsRestOf(Next(t, e).res.channel, was)
  {
  }

  /** What was lost stays lost: while the capacity stays the same, nothing enters
      the channel, and whatever the user takes, it hears nothing new. */
  lemma {:induction false} LostStaysLost(t: Told, es: seq<Event>)
    requires forall i | 0 <= i < |es| :: Repeats(After(t, es[..i]), es[i])
    ensures Heard(After(t, es)) == Heard(t) && CapacityOf(After(t, es).res) == CapacityOf(t.res)
    ensures IsRestOf(After(t, es).res.channel, t.res.channel)
    decreases |es|
  {
    if es != [] {
      hide Repeats, Next, IsRestOf, Heard, CapacityOf;
      var init, e := es[..|es| - 1], es[|es| - 1];
      assert forall i | 0 <= i < |init| :: es[..i] == init[..i] && es[i] == init[i];
      LostStaysLost(t, init);
      assert es[..|init|] == init;
      RepeatedEvent(After(t, init), e);
    }
  }
}
