/**
 Where the UDP fault injector sends what it forwards: the bytes that came in, on the mapping they came in on
 or, from a client, on a mapping of that client.
 */
module ChaosAddresses {
  import opened Base
  import opened ChaosQueue
  import opened ChaosProxy
  import ChaosRuns

  /** These bytes on this mapping are the right thing to send for an arrival. */
  predicate For(items: map<nat, Item>, a: Arrival, data: seq<Byte>, item: nat) {
    && data == a.data
    && match a.source
       case FromServer(on) => item == on
       case FromClient(client) => item in items && items[item].client == client
  }

  /** Every client's mapping is its own, and numbers are not used twice. */
  ghost predicate Table(mappings: map<string, nat>, items: map<nat, Item>, created: nat) {
    && (forall c :: c in mappings ==> mappings[c] in items && items[mappings[c]].client == c)
    && (forall i :: i in items ==> i < created)
  }

  ghost predicate Queue(items: map<nat, Item>, arrivals: seq<Arrival>, q: seq<Entry>) {
    forall e :: e in q ==> e.arrival < |arrivals| && For(items, arrivals[e.arrival], e.data, e.item)
  }

  ghost predicate Deliveries(items: map<nat, Item>, arrivals: seq<Arrival>, sent: seq<Delivery>) {
    forall x :: x in sent ==> x.arrival < |arrivals| && For(items, arrivals[x.arrival], x.data, x.item)
  }

  ghost predicate Addressed(s: State) {
    && Table(s.mappings, s.items, s.created)
    && Queue(s.items, s.history.arrivals, s.pending)
    && Deliveries(s.items, s.history.arrivals, s.history.deliveries)
  }

  /** Items stay, each with its client. */
  predicate Grows(items: map<nat, Item>, more: map<nat, Item>) {
    forall i :: i in items ==> i in more && more[i].client == items[i].client
  }

  /** Later items and arrivals change nothing for what is queued or was sent. */
  lemma StillAddressed(items: map<nat, Item>, more: map<nat, Item>, arrivals: seq<Arrival>, later: seq<Arrival>,
                       q: seq<Entry>, sent: seq<Delivery>)
    requires Grows(items, more) && arrivals <= later
    requires Queue(items, arrivals, q) && Deliveries(items, arrivals, sent)
    ensures Queue(more, later, q) && Deliveries(more, later, sent)
  {
    forall e | e in q ensures e.arrival < |later| && For(more, later[e.arrival], e.data, e.item) {
      assert For(items, arrivals[e.arrival], e.data, e.item);
    }
    forall x | x in sent ensures x.arrival < |later| && For(more, later[x.arrival], x.data, x.item) {
      assert For(items, arrivals[x.arrival], x.data, x.item);
    }
  }

  /** A step that moves neither the queue nor the deliveries. */
  lemma QuietAddressed(s: State, r: State)
    requires Addressed(s) && Table(r.mappings, r.items, r.created) && Grows(s.items, r.items)
    requires r.pending == s.pending && r.history.deliveries == s.history.deliveries
    requires s.history.arrivals <= r.history.arrivals
    ensures Addressed(r)
  {
    StillAddressed(s.items, r.items, s.history.arrivals, r.history.arrivals, s.pending, s.history.deliveries);
  }

  lemma TouchAddressed(s: State, item: nat)
    requires Addressed(s)
    ensures Addressed(Touch(s, item)) && Grows(s.items, Touch(s, item).items)
  {
    QuietAddressed(s, Touch(s, item));
  }

  /** Sending what is rightly addressed. */
  lemma SentAddressed(s: State, e: Entry, sends: bool)
    requires Addressed(s) && e.arrival < |s.history.arrivals|
    requires For(s.items, s.history.arrivals[e.arrival], e.data, e.item)
    ensures Addressed(Sent(s, e, sends))
  {
    TouchAddressed(s, e.item);
    var t := Touch(s, e.item);
    var x := Delivery(e.arrival, e.dir, s.epoch, s.clock, e.data, e.item);
    assert Deliveries(t.items, s.history.arrivals, s.history.deliveries + [x]);
  }

  lemma EnqueuedAddressed(s: State, item: nat, d: Direction, data: seq<Byte>, delay: real, arrival: nat)
    requires Addressed(s) && arrival < |s.history.arrivals| && For(s.items, s.history.arrivals[arrival], data, item)
    ensures Addressed(Enqueued(s, item, d, data, delay, arrival))
  {
    PushMembers(s.pending, Entry(s.clock + delay, s.sequence + 1, item, d, data, arrival));
  }

  lemma RoutedAddressed(s: State, item: Option<nat>, d: Direction, data: seq<Byte>, draws: Draws, arrival: nat)
    requires Addressed(s) && arrival < |s.history.arrivals|
    requires item.Some? ==> For(s.items, s.history.arrivals[arrival], data, item.value)
    ensures Addressed(Routed(s, item, d, data, draws, arrival))
  {
    if item.Some? {
      var t := Touch(s, item.value);
      TouchAddressed(s, item.value);
      match FateOf(s.faults.Of(d), true, Full(s, data), draws)
      case Drop(_) =>
      case SendNow =>
        SentAddressed(t, Entry(s.clock, 0, item.value, d, data, arrival), draws.sends);
      case Delay(delay) =>
        EnqueuedAddressed(t, item.value, d, data, delay, arrival);
    }
  }

  lemma MappedAddressed(s: State, client: string, connects: bool)
    requires Addressed(s)
    ensures var (r, item) := Mapped(s, client, connects);
            && Addressed(r) && r.history == s.history
            && (item.Some? ==> item.value in r.items && r.items[item.value].client == client)
  {
    var (r, item) := Mapped(s, client, connects);
    QuietAddressed(s, r);
  }

  lemma ReceiveAddressed(s: State, source: Source, data: seq<Byte>, now: real, draws: Draws)
    requires Addressed(s)
    ensures Addressed(ReceivedFrom(s, source, data, now, draws))
  {
    var d := DirectionOf(source);
    var counted := Arrived(s, source, data, now, DelayFor(s.faults.Of(d), draws.jitter));
    QuietAddressed(s, counted);
    match source
    case FromClient(client) =>
      MappedAddressed(counted, client, draws.connects);
      var (mapped, item) := Mapped(counted, client, draws.connects);
      RoutedAddressed(mapped, item, d, data, draws, |s.history.arrivals|);
    case FromServer(on) =>
      RoutedAddressed(counted, Some(on), d, data, draws, |s.history.arrivals|);
  }

  lemma {:induction false} PopAddressed(s: State, failing: set<nat>)
    requires Addressed(s)
    ensures Addressed(Popped(s, failing))
    decreases |s.pending|
  {
    if HeadDue(s) {
      var e := s.pending[0];
      assert e in s.pending;
      SentAddressed(s.(pending := s.pending[1..], queuedBytes := s.queuedBytes - |e.data|), e, e.sequence !in failing);
      PopAddressed(PopOne(s, failing), failing);
    }
  }

  lemma CloseAddressed(s: State, clients: set<string>)
    requires Addressed(s)
    ensures Addressed(CloseMappings(s, clients))
  {
    QuietAddressed(s, CloseMappings(s, clients));
  }

  lemma StepAddressed(s: State, e: Event)
    requires Addressed(s) && s.faults.Valid()
    ensures Addressed(After(s, e))
  {
    match e
    case Receive(source, data, now, draws) =>
      ReceiveAddressed(s, source, data, now, draws);
    case Tick(now, failing) =>
      PopAddressed(s.(clock := now), failing);
      var sent := Popped(s.(clock := now), failing);
      CloseAddressed(sent, set c | c in sent.mappings && Idle(sent, c));
    case Control(_) =>
    case Close =>
      CloseAddressed(Discarded(s, Shutdown), s.mappings.Keys);
  }

  lemma {:induction false} RunAddressed(s: State, events: seq<Event>)
    requires Addressed(s) && s.faults.Valid()
    ensures Addressed(ChaosRuns.Run(s, events))
    decreases |events|
  {
    if events != [] {
      StepAddressed(s, events[0]);
      RunAddressed(After(s, events[0]), events[1..]);
    }
  }

  /** No misdelivery: what is forwarded are the bytes of its arrival, on the mapping it came in on or its client's. */
  lemma NoMisdelivery(limits: Limits, now: real, events: seq<Event>, i: nat)
    requires i < |ChaosRuns.Run(Initial(limits, now), events).history.deliveries|
    ensures var s := ChaosRuns.Run(Initial(limits, now), events);
            var x := s.history.deliveries[i];
            && x.arrival < |s.history.arrivals|
            && x.data == s.history.arrivals[x.arrival].data
            && match s.history.arrivals[x.arrival].source
               case FromServer(on) => x.item == on
               case FromClient(client) => x.item in s.items && s.items[x.item].client == client
  {
    RunAddressed(Initial(limits, now), events);
    var s := ChaosRuns.Run(Initial(limits, now), events);
    assert s.history.deliveries[i] in s.history.deliveries;
  }
}
