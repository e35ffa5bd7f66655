/** The bus of complete Session states: one-slot mailboxes filled by a publisher that holds the
    mutex, while receivers empty them at any moment without it. */
module EventBus {
  import opened Collections

  datatype Event = Event(revision: nat, payload: string)

  /** One subscriber's channel: the revision it subscribed after, the newest revision it was
      offered, its one-slot buffer, and everything its receiver has taken out so far. */
  datatype Channel = Channel(start: nat, revision: nat, mailbox: Option<Event>, received: seq<Event>)

  /** Every channel ever made, and the subscribers still attached. Revision 0 means nothing published. */
  datatype Bus = Bus(channels: map<string, Channel>, subscribers: set<string>, latest: Event, closed: bool)

  // ------------------------------------------------------------- specification

  function Opened(latest: Event, revision: nat): Channel {
    if latest.revision > revision then Channel(revision, latest.revision, Some(latest), [])
    else Channel(revision, revision, None, [])
  }

  /** The channel after the publisher has dealt with it and no receiver interfered. */
  function Offered(c: Channel, event: Event): Channel {
    if event.revision <= c.revision then c else c.(revision := event.revision, mailbox := Some(event))
  }

  function Taken(c: Channel): Channel {
    if c.mailbox.None? then c else c.(received := c.received + [c.mailbox.value], mailbox := None)
  }

  predicate Stale(bus: Bus, event: Event) {
    bus.closed || event.revision <= bus.latest.revision
  }

  function OfferedTo(channels: map<string, Channel>, ids: set<string>, event: Event): map<string, Channel> {
    map id | id in channels :: if id in ids then Offered(channels[id], event) else channels[id]
  }

  function Published(bus: Bus, event: Event): Bus {
    if Stale(bus, event) then bus
    else bus.(latest := event, channels := OfferedTo(bus.channels, bus.subscribers, event))
  }

  // --------------------------------------------------------- the imperative form

  class Hub {
    var channels: map<string, Channel>
    var subscribers: set<string>
    var latest: Event
    var closed: bool

    ghost predicate Valid()
      reads this
    {
      subscribers <= channels.Keys
    }

    ghost function State(): Bus
      reads this
    {
      Bus(channels, subscribers, latest, closed)
    }

    constructor ()
      ensures Valid() && State() == Bus(map[], {}, Event(0, ""), false)
    {
      channels, subscribers, latest, closed := map[], {}, Event(0, ""), false;
    }

    method SubscribeAfter(id: string, limit: int, revision: nat) returns (ok: bool)
      requires Valid() && id !in channels
      modifies this
      ensures Valid()
      ensures ok <==> !old(closed) && |old(subscribers)| < limit
      ensures ok ==> State() == old(State()).(channels := old(channels)[id := Opened(latest, revision)],
                                              subscribers := old(subscribers) + {id})
      ensures !ok ==> State() == old(State())
    {
      if closed || |subscribers| >= limit {
        return false;
      }
      var sub := Channel(revision, revision, None, []);
      if latest.revision > revision {
        sub := sub.(mailbox := Some(latest), revision := latest.revision);
      }
      channels := channels[id := sub];
      subscribers := subscribers + {id};
      return true;
    }

    /** No later publish reaches the channel; what waits in it can still be received. */
    method Unsubscribe(id: string)
      requires Valid()
      modifies this
      ensures Valid() && State() == old(State()).(subscribers := old(subscribers) - {id})
      ensures id in channels ==> forall event :: Published(State(), event).channels[id] == channels[id]
    {
      subscribers := subscribers - {id};
    }

    method Publish(event: Event)
      requires Valid()
      modifies this
      ensures Valid() && State() == Published(old(State()), event)
    {
      if closed || event.revision <= latest.revision {
        return;
      }
      latest := event;
      var todo := subscribers;
      while todo != {}
        invariant todo <= subscribers == old(subscribers) <= channels.Keys == old(channels).Keys
        invariant latest == event && closed == old(closed)
        invariant forall id :: id in channels ==>
          channels[id] == if id in subscribers - todo then Offered(old(channels)[id], event) else old(channels)[id]
        decreases todo
      {
        var id :| id in todo;
        todo := todo - {id};
        var sub := channels[id];
        if event.revision > sub.revision {
          sub := sub.(revision := event.revision);
          if sub.mailbox.Some? {
            sub := sub.(mailbox := None);
          }
          channels := channels[id := sub.(mailbox := Some(event))];
        }
      }
      assert channels == OfferedTo(old(channels), subscribers, event);
    }

    /** From then on nothing can be published. */
    method Close()
      requires Valid()
      modifies this
      ensures Valid() && State() == old(State()).(closed := true, subscribers := if old(closed) then old(subscribers) else {})
      ensures forall event :: Published(State(), event) == State()
    {
      if closed {
        return;
      }
      closed, subscribers := true, {};
    }

    method Receive(id: string) returns (event: Option<Event>)
      requires Valid() && id in channels
      modifies this
      ensures Valid() && event == old(channels)[id].mailbox
      ensures State() == old(State()).(channels := old(channels)[id := Taken(old(channels)[id])])
    {
      var sub := channels[id];
      event := sub.mailbox;
      if event.Some? {
        channels := channels[id := sub.(received := sub.received + [event.value], mailbox := None)];
      } else {
        assert channels == channels[id := sub];
      }
    }
  }

  // ------------------------------------------------------ publisher against receivers

  /** Where the publisher is. It holds the mutex unless idle. `Draining` is between the failed
      first send and the drain; `Sending` is between the drain and the final, blocking send. */
  datatype Publisher =
    | Idle
    | Visiting(event: Event, todo: set<string>)
    | Draining(event: Event, todo: set<string>, id: string)
    | Sending(event: Event, todo: set<string>, id: string)

  datatype System = System(bus: Bus, publisher: Publisher)

  datatype Action =
    | Subscribe(id: string, limit: int, revision: nat)
    | Unsubscribe(id: string)
    | Close
    | Begin(event: Event)
    | Visit(id: string)
    | Drain
    | Send
    | Finish
    | Receive(id: string)

  function SetChannel(s: System, id: string, c: Channel): System {
    s.(bus := s.bus.(channels := s.bus.channels[id := c]))
  }

  /** One atomic step; a step whose guard fails (a blocked send, a mutex that is held) changes nothing. */
  function Next(s: System, a: Action): System {
    match a
    case Subscribe(id, limit, revision) =>
      if !s.publisher.Idle? || s.bus.closed || |s.bus.subscribers| >= limit || id in s.bus.channels then s
      else SetChannel(s.(bus := s.bus.(subscribers := s.bus.subscribers + {id})), id, Opened(s.bus.latest, revision))
    case Unsubscribe(id) =>
      if s.publisher.Idle? then s.(bus := s.bus.(subscribers := s.bus.subscribers - {id})) else s
    case Close =>
      if s.publisher.Idle? && !s.bus.closed then s.(bus := s.bus.(subscribers := {}, closed := true)) else s
    case Begin(event) =>
      if !s.publisher.Idle? || Stale(s.bus, event) then s
      else System(s.bus.(latest := event), Visiting(event, s.bus.subscribers))
    case Visit(id) =>
      if !s.publisher.Visiting? || id !in s.publisher.todo || id !in s.bus.channels then s else
      var c := s.bus.channels[id];
      var event, todo := s.publisher.event, s.publisher.todo - {id};
      if event.revision <= c.revision then s.(publisher := Visiting(event, todo))
      else if c.mailbox.None? then
        SetChannel(s, id, c.(revision := event.revision, mailbox := Some(event))).(publisher := Visiting(event, todo))
      else SetChannel(s, id, c.(revision := event.revision)).(publisher := Draining(event, todo, id))
    case Drain =>
      if !s.publisher.Draining? || s.publisher.id !in s.bus.channels then s else
      var p := s.publisher;
      SetChannel(s, p.id, s.bus.channels[p.id].(mailbox := None)).(publisher := Sending(p.event, p.todo, p.id))
    case Send =>
      if !s.publisher.Sending? || s.publisher.id !in s.bus.channels then s else
      var p := s.publisher;
      if s.bus.channels[p.id].mailbox.Some? then s
      else SetChannel(s, p.id, s.bus.channels[p.id].(mailbox := Some(p.event))).(publisher := Visiting(p.event, p.todo))
    case Finish =>
      if s.publisher.Visiting? && s.publisher.todo == {} then s.(publisher := Idle) else s
    case Receive(id) =>
      if id in s.bus.channels then SetChannel(s, id, Taken(s.bus.channels[id])) else s
  }

  ghost predicate IsRun(run: seq<System>, actions: seq<Action>) {
    && |run| == |actions| + 1
    && run[0] == System(Bus(map[], {}, Event(0, ""), false), Idle)
    && forall i {:trigger actions[i]} :: 0 <= i < |actions| ==> run[i + 1] == Next(run[i], actions[i])
  }

  // ---------------------------------------------------------------- invariant

  /** The newest event the subscriber has been given: waiting, or else the last one taken. */
  function Newest(c: Channel): Option<Event> {
    if c.mailbox.Some? then c.mailbox
    else if c.received != [] then Some(c.received[|c.received| - 1])
    else None
  }

  /** Revisions seen by the receiver, and then the one waiting, strictly increase above the start. */
  predicate Ordered(c: Channel) {
    && (forall i :: 0 <= i < |c.received| ==> c.start < c.received[i].revision)
    && (forall i, j :: 0 <= i < j < |c.received| ==> c.received[i].revision < c.received[j].revision)
    && (c.mailbox.Some? ==> c.start < c.mailbox.value.revision)
    && (c.mailbox.Some? ==> forall i :: 0 <= i < |c.received| ==> c.received[i].revision < c.mailbox.value.revision)
  }

  /** The channel has the newest state that concerns it. */
  predicate Settled(c: Channel, latest: Event) {
    if latest.revision > c.start then Newest(c) == Some(latest) && c.revision == latest.revision
    else Newest(c) == None && c.revision == c.start
  }

  /** The publisher has not reached this channel yet. */
  predicate Behind(c: Channel, latest: Event) {
    match Newest(c)
    case None => c.revision == c.start
    case Some(e) => c.revision == e.revision < latest.revision
  }

  /** The publisher has marked this channel and still owes it the event. */
  predicate Owed(c: Channel, latest: Event) {
    && c.revision == latest.revision > c.start
    && (Newest(c).Some? ==> Newest(c).value.revision < latest.revision)
  }

  predicate InHand(p: Publisher, id: string) {
    (p.Draining? || p.Sending?) && p.id == id
  }

  predicate Todo(p: Publisher, id: string) {
    !p.Idle? && id in p.todo
  }

  predicate ChannelInv(s: System, id: string)
    requires id in s.bus.channels
  {
    var c := s.bus.channels[id];
    && Ordered(c)
    && (InHand(s.publisher, id) ==> Owed(c, s.bus.latest))
    && (Todo(s.publisher, id) ==> Behind(c, s.bus.latest))
    && (id in s.bus.subscribers && !InHand(s.publisher, id) && !Todo(s.publisher, id) ==> Settled(c, s.bus.latest))
  }

  predicate PublisherInv(s: System) {
    var p := s.publisher;
    && s.bus.subscribers <= s.bus.channels.Keys
    && (!p.Idle? ==> p.event == s.bus.latest && p.todo <= s.bus.subscribers)
    && (p.Draining? || p.Sending? ==> p.id in s.bus.subscribers && p.id !in p.todo)
    && (p.Sending? ==> p.id in s.bus.channels && s.bus.channels[p.id].mailbox.None?)
  }

  predicate Inv(s: System) {
    PublisherInv(s) && forall id :: id in s.bus.channels ==> ChannelInv(s, id)
  }

  /** Putting a newer event into an empty mailbox settles the channel. */
  lemma SendingSettles(c: Channel, event: Event)
    requires Ordered(c) && c.mailbox.None? && event.revision > c.start
    requires Newest(c).Some? ==> Newest(c).value.revision < event.revision
    ensures var d := c.(revision := event.revision, mailbox := Some(event));
      Ordered(d) && Settled(d, event)
  {
  }

  lemma ReceiveStep(s: System, taken: string, id: string)
    requires PublisherInv(s) && id in s.bus.channels && ChannelInv(s, id)
    ensures id in Next(s, Receive(taken)).bus.channels && ChannelInv(Next(s, Receive(taken)), id)
  {
  }

  lemma VisitStep(s: System, visited: string, id: string)
    requires PublisherInv(s) && id in s.bus.channels && ChannelInv(s, id)
    ensures id in Next(s, Visit(visited)).bus.channels && ChannelInv(Next(s, Visit(visited)), id)
  {
    var c := s.bus.channels[id];
    if visited == id && Todo(s.publisher, id) && c.mailbox.None? && s.bus.latest.revision > c.revision {
      SendingSettles(c, s.bus.latest);
    }
  }

  lemma DrainStep(s: System, id: string)
    requires PublisherInv(s) && id in s.bus.channels && ChannelInv(s, id)
    ensures id in Next(s, Drain).bus.channels && ChannelInv(Next(s, Drain), id)
  {
  }

  lemma SendStep(s: System, id: string)
    requires PublisherInv(s) && id in s.bus.channels && ChannelInv(s, id)
    ensures id in Next(s, Send).bus.channels && ChannelInv(Next(s, Send), id)
  {
    if s.publisher.Sending? && s.publisher.id == id {
      SendingSettles(s.bus.channels[id], s.bus.latest);
    }
  }

  lemma ControlStep(s: System, a: Action, id: string)
    requires PublisherInv(s) && (a.Unsubscribe? || a.Close? || a.Begin? || a.Finish?)
    requires id in s.bus.channels && ChannelInv(s, id)
    ensures id in Next(s, a).bus.channels && ChannelInv(Next(s, a), id)
  {
  }

  lemma SubscribeStep(s: System, a: Action, id: string)
    requires PublisherInv(s) && a.Subscribe? && id in Next(s, a).bus.channels
    requires id in s.bus.channels ==> ChannelInv(s, id)
    ensures ChannelInv(Next(s, a), id)
  {
  }

  lemma PublisherInvStep(s: System, a: Action)
    requires PublisherInv(s)
    ensures PublisherInv(Next(s, a))
  {
  }

  lemma InvStep(s: System, a: Action)
    requires Inv(s)
    ensures Inv(Next(s, a))
  {
    PublisherInvStep(s, a);
    forall id | id in Next(s, a).bus.channels
      ensures ChannelInv(Next(s, a), id)
    {
      match a {
        case Receive(taken) => ReceiveStep(s, taken, id);
        case Subscribe(_, _, _) => SubscribeStep(s, a, id);
        case Visit(visited) => VisitStep(s, visited, id);
        case Drain => DrainStep(s, id);
        case Send => SendStep(s, id);
        case _ => ControlStep(s, a, id);
      }
    }
  }

  lemma {:induction false} RunInv(run: seq<System>, actions: seq<Action>, n: nat)
    requires IsRun(run, actions) && n < |run|
    ensures Inv(run[n])
  {
    if n > 0 {
      RunInv(run, actions, n - 1);
      InvStep(run[n - 1], actions[n - 1]);
    }
  }

  // ----------------------------------------------------------------- theorems

  /** In every interleaving each receiver sees strictly increasing revisions above its start. */
  lemma ReceivedInOrder(run: seq<System>, actions: seq<Action>, n: nat, id: string)
    requires IsRun(run, actions) && n < |run| && id in run[n].bus.channels
    ensures var c := run[n].bus.channels[id];
      && (forall i :: 0 <= i < |c.received| ==> c.start < c.received[i].revision)
      && (forall i, j :: 0 <= i < j < |c.received| ==> c.received[i].revision < c.received[j].revision)
  {
    RunInv(run, actions, n);
    assert ChannelInv(run[n], id);
  }

  /** Whenever no publish is under way, the newest state above its start has reached every
      attached subscriber: it waits in the mailbox or is the last thing received. */
  lemma NewestReachesEveryone(run: seq<System>, actions: seq<Action>, n: nat, id: string)
    requires IsRun(run, actions) && n < |run| && run[n].publisher.Idle? && id in run[n].bus.subscribers
    ensures id in run[n].bus.channels
    ensures var c := run[n].bus.channels[id];
      if run[n].bus.latest.revision > c.start then Newest(c) == Some(run[n].bus.latest) else Newest(c) == None
  {
    RunInv(run, actions, n);
    assert ChannelInv(run[n], id);
  }

  /** How many steps the publisher still needs. */
  function Remaining(p: Publisher): nat {
    match p
    case Idle => 0
    case Visiting(_, todo) => 3 * |todo| + 1
    case Draining(_, todo, _) => 3 * |todo| + 3
    case Sending(_, todo, _) => 3 * |todo| + 2
  }

  /** The publisher's own next step, of which `id` says which subscriber it visits next. */
  function OwnStep(p: Publisher, id: string): Action {
    match p
    case Idle => Finish
    case Visiting(_, todo) => if todo == {} then Finish else Visit(id)
    case Draining(_, _, _) => Drain
    case Sending(_, _, _) => Send
  }

  lemma OwnStepProceeds(s: System, id: string)
    requires PublisherInv(s) && !s.publisher.Idle? && (s.publisher.Visiting? && s.publisher.todo != {} ==> id in s.publisher.todo)
    ensures Remaining(Next(s, OwnStep(s.publisher, id)).publisher) < Remaining(s.publisher)
  {
  }

  /** Publish never blocks: whatever the receivers do, the publisher's own next step is always
      possible and brings the end of the publish nearer, and no receiver sets it back. */
  lemma PublisherNeverBlocks(run: seq<System>, actions: seq<Action>, n: nat, id: string)
    requires IsRun(run, actions) && n < |run| && !run[n].publisher.Idle?
    requires run[n].publisher.Visiting? && run[n].publisher.todo != {} ==> id in run[n].publisher.todo
    ensures Remaining(Next(run[n], OwnStep(run[n].publisher, id)).publisher) < Remaining(run[n].publisher)
    ensures forall taken :: Next(run[n], Receive(taken)).publisher == run[n].publisher
  {
    RunInv(run, actions, n);
    OwnStepProceeds(run[n], id);
  }

  // ------------------------------------------- the loop is the interleaving's quiet case

  /** The bus that the rest of the publish produces if no receiver interferes. */
  function Completed(s: System): Bus {
    match s.publisher
    case Idle => s.bus
    case Visiting(event, todo) => s.bus.(channels := OfferedTo(s.bus.channels, todo, event))
    case Draining(event, todo, id) => s.bus.(channels := Handed(s.bus.channels, todo, event, id))
    case Sending(event, todo, id) => s.bus.(channels := Handed(s.bus.channels, todo, event, id))
  }

  function Handed(channels: map<string, Channel>, todo: set<string>, event: Event, id: string): map<string, Channel> {
    if id !in channels then OfferedTo(channels, todo, event)
    else OfferedTo(channels[id := channels[id].(mailbox := Some(event))], todo, event)
  }

  lemma CompletedStep(s: System, a: Action)
    requires PublisherInv(s) && (a.Visit? || a.Drain? || a.Send? || a.Finish?)
    ensures Completed(Next(s, a)).channels == Completed(s).channels
    ensures Completed(Next(s, a)) == Completed(s)
  {
  }

  /** Starting to publish promises exactly what the sequential method does. */
  lemma BeginPromises(s: System, event: Event)
    requires PublisherInv(s) && s.publisher.Idle?
    ensures Completed(Next(s, Begin(event))) == Published(s.bus, event)
  {
  }

  /** While the publisher holds the mutex, only its own steps and receives do anything. */
  lemma OthersWait(s: System, a: Action)
    requires !s.publisher.Idle? && (a.Subscribe? || a.Unsubscribe? || a.Close? || a.Begin?)
    ensures Next(s, a) == s
  {
  }

  lemma PromiseStep(s: System, a: Action)
    requires PublisherInv(s) && !s.publisher.Idle? && !a.Receive?
    ensures Completed(Next(s, a)) == Completed(s)
  {
    if a.Visit? || a.Drain? || a.Send? || a.Finish? {
      CompletedStep(s, a);
    } else {
      OthersWait(s, a);
    }
  }

  lemma PromiseAt(run: seq<System>, actions: seq<Action>, k: nat)
    requires IsRun(run, actions) && k < |actions| && !run[k].publisher.Idle? && !actions[k].Receive?
    ensures Completed(run[k + 1]) == Completed(run[k])
  {
    RunInv(run, actions, k);
    PromiseStep(run[k], actions[k]);
  }

  lemma {:induction false} Unchanged(run: seq<System>, i: nat, j: nat)
    requires i <= j < |run| && forall k :: i <= k < j ==> Completed(run[k + 1]) == Completed(run[k])
    ensures Completed(run[j]) == Completed(run[i])
    decreases j
  {
    if i < j {
      Unchanged(run, i, j - 1);
    }
  }

  /** A publish during which nobody receives ends in exactly what the sequential loop computes,
      in whatever order it visits the subscribers and whatever else is attempted meanwhile. */
  lemma QuietPublishIsPublished(run: seq<System>, actions: seq<Action>, i: nat, j: nat, event: Event)
    requires IsRun(run, actions) && i < j < |run| && run[i].publisher.Idle? && actions[i] == Begin(event)
    requires forall k :: i < k < j ==> !run[k].publisher.Idle? && !actions[k].Receive?
    requires run[j].publisher.Idle?
    ensures run[j].bus == Published(run[i].bus, event)
  {
    RunInv(run, actions, i);
    BeginPromises(run[i], event);
    forall k | i + 1 <= k < j
      ensures Completed(run[k + 1]) == Completed(run[k])
    {
      PromiseAt(run, actions, k);
    }
    Unchanged(run, i + 1, j);
  }

  // ------------------------------------------------------- what a publish does

  /** A publish takes effect exactly if the bus is open and the event is newer than everything
      published before; then every attached subscriber is to be visited. */
  lemma PublishBeginsIff(run: seq<System>, actions: seq<Action>, n: nat, event: Event)
    requires IsRun(run, actions) && n < |actions| && actions[n] == Begin(event) && run[n].publisher.Idle?
    ensures if !run[n].bus.closed && event.revision > run[n].bus.latest.revision
            then run[n + 1].bus == run[n].bus.(latest := event) && run[n + 1].publisher == Visiting(event, run[n].bus.subscribers)
            else run[n + 1] == run[n]
  {
    assert run[n + 1] == Next(run[n], actions[n]);
  }

  /** What the sequential publish leaves behind: each attached subscriber that has not been offered
      anything as new finds the event in its mailbox, and every other channel is untouched. */
  lemma PublishedReaches(bus: Bus, event: Event, id: string)
    requires bus.subscribers <= bus.channels.Keys && id in bus.channels
    ensures id in Published(bus, event).channels
    ensures var c, d := bus.channels[id], Published(bus, event).channels[id];
      if !bus.closed && event.revision > bus.latest.revision && id in bus.subscribers && event.revision > c.revision
      then d.mailbox == Some(event) && d.revision == event.revision && d.received == c.received && d.start == c.start
      else d == c
    ensures Published(bus, event).latest == if !bus.closed && event.revision > bus.latest.revision then event else bus.latest
  {
  }

  /** Subscribing, unsubscribing, closing and receiving take effect exactly when they should. */
  lemma OtherStepsIff(run: seq<System>, actions: seq<Action>, n: nat)
    requires IsRun(run, actions) && n < |actions|
    ensures actions[n].Subscribe? && run[n].publisher.Idle? && actions[n].id !in run[n].bus.channels ==>
      (actions[n].id in run[n + 1].bus.subscribers <==> !run[n].bus.closed && |run[n].bus.subscribers| < actions[n].limit)
    ensures actions[n].Unsubscribe? && run[n].publisher.Idle? ==>
      run[n + 1].bus.subscribers == run[n].bus.subscribers - {actions[n].id}
    ensures actions[n].Close? && run[n].publisher.Idle? && !run[n].bus.closed ==> run[n + 1].bus.closed && run[n + 1].bus.subscribers == {}
    ensures actions[n].Receive? && actions[n].id in run[n].bus.channels ==>
      var id := actions[n].id;
      id in run[n + 1].bus.channels
      && var c, d := run[n].bus.channels[id], run[n + 1].bus.channels[id];
         d.mailbox.None? && d.received == c.received + Listed(c.mailbox)
  {
    RunInv(run, actions, n);
    assert run[n + 1] == Next(run[n], actions[n]);
  }
}
