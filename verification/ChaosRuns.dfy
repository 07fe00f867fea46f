/** What holds of the UDP fault injector after every run. */
module ChaosRuns {
  import opened Base
  import opened ChaosQueue
  import opened ChaosProxy

  // ---- Limits -----------------------------------------------------------------------

  lemma FewerMappings(m: map<string, nat>, gone: set<string>)
    ensures |m - gone| <= |m|
  {
  }

  lemma EnqueuedBounded(s: State, item: nat, d: Direction, data: seq<Byte>, delay: real, arrival: nat)
    requires Bounded(s) && !Full(s, data)
    ensures Bounded(Enqueued(s, item, d, data, delay, arrival))
  {
    SumPush(s.pending, Entry(s.clock + delay, s.sequence + 1, item, d, data, arrival), Size());
  }

  lemma RoutedBounded(s: State, item: Option<nat>, d: Direction, data: seq<Byte>, draws: Draws, arrival: nat)
    requires Bounded(s)
    ensures Bounded(Routed(s, item, d, data, draws, arrival))
  {
    var fate := FateOf(s.faults.Of(d), item.Some?, Full(s, data), draws);
    if fate.Delay? {
      TouchBounded(s, item.value, data);
      EnqueuedBounded(Touch(s, item.value), item.value, d, data, fate.seconds, arrival);
    } else if fate.Drop? {
      DropBounded(s, item, d, data, fate.reason);
    } else {
      SendBounded(s, item.value, Entry(s.clock, 0, item.value, d, data, arrival), draws.sends);
    }
  }

  lemma TouchBounded(s: State, item: nat, data: seq<Byte>)
    requires Bounded(s)
    ensures Bounded(Touch(s, item)) && (Full(Touch(s, item), data) <==> Full(s, data))
  {
  }

  lemma DropBounded(s: State, item: Option<nat>, d: Direction, data: seq<Byte>, reason: Reason)
    requires Bounded(s)
    ensures Bounded(Account(if item.Some? then Touch(s, item.value) else s, d, Dropped(reason), data))
  {
  }

  lemma SendBounded(s: State, item: nat, e: Entry, sends: bool)
    requires Bounded(s)
    ensures Bounded(Sent(Touch(s, item), e, sends))
  {
  }

  lemma ReceiveBounded(s: State, source: Source, data: seq<Byte>, now: real, draws: Draws)
    requires Bounded(s)
    ensures Bounded(ReceivedFrom(s, source, data, now, draws))
  {
    var d := DirectionOf(source);
    var counted := Arrived(s, source, data, now, DelayFor(s.faults.Of(d), draws.jitter));
    var mapped := if source.FromClient? then Mapped(counted, source.client, draws.connects)
                  else (counted, Some(source.item));
    RoutedBounded(mapped.0, mapped.1, d, data, draws, |s.history.arrivals|);
  }

  lemma {:induction false} PopBounded(s: State, failing: set<nat>)
    requires Bounded(s)
    ensures Bounded(Popped(s, failing))
    decreases |s.pending|
  {
    if HeadDue(s) {
      PopBounded(PopOne(s, failing), failing);
    }
  }

  lemma StepBounded(s: State, e: Event)
    requires Bounded(s) && s.faults.Valid()
    ensures Bounded(After(s, e))
  {
    match e {
      case Receive(source, data, now, draws) =>
        ReceiveBounded(s, source, data, now, draws);
      case Tick(now, failing) =>
        PopBounded(s.(clock := now), failing);
        var sent := Popped(s.(clock := now), failing);
        FewerMappings(sent.mappings, set c | c in sent.mappings && Idle(sent, c));
      case Control(_) =>
      case Close =>
        FewerMappings(s.mappings, s.mappings.Keys);
    }
  }

  // ---- History ------------------------------------------------------------------------

  lemma TraceClock(h: History, q: seq<Entry>, epoch: nat, sequence: nat, clock: real, now: real)
    requires Traced(h, q, epoch, sequence, clock) && clock <= now
    ensures Traced(h, q, epoch, sequence, now)
  {
  }

  lemma DelayInRange(f: Fault, draw: real)
    requires -f.jitterMs <= draw <= f.jitterMs
    ensures 0.0 <= DelayFor(f, -f.jitterMs) <= DelayFor(f, draw) <= DelayFor(f, f.jitterMs)
  {
  }

  /** The newest arrival is known to nothing else yet. */
  ghost predicate JustArrived(s: State, d: Direction, data: seq<Byte>, delay: real) {
    && s.history.arrivals != []
    && var n := |s.history.arrivals| - 1;
       && s.history.arrivals[n] == Arrival(d, data, s.clock, s.epoch, s.clock + delay, s.history.arrivals[n].source)
       && Undelivered(s.history, n)
       && forall k :: 0 <= k < |s.pending| ==> s.pending[k].arrival < n
  }

  /** A step that moves neither the queue nor the history keeps them in agreement. */
  lemma QuietRecorded(s: State, r: State)
    requires Recorded(s) && r.pending == s.pending && r.history == s.history && r.clock == s.clock
    requires r.epoch == s.epoch && r.sequence == s.sequence && r.faults == s.faults
    ensures Recorded(r)
  {
  }

  lemma TouchRecorded(s: State, item: nat, d: Direction, data: seq<Byte>, delay: real)
    requires Recorded(s) && JustArrived(s, d, data, delay)
    ensures Recorded(Touch(s, item)) && JustArrived(Touch(s, item), d, data, delay)
    ensures Touch(s, item).history == s.history
  {
  }

  lemma ArrivedRecorded(s: State, source: Source, data: seq<Byte>, now: real, draw: real)
    requires Recorded(s) && now >= s.clock
    requires var f := s.faults.Of(DirectionOf(source)); -f.jitterMs <= draw <= f.jitterMs
    ensures var d := DirectionOf(source);
            var r := Arrived(s, source, data, now, DelayFor(s.faults.Of(d), draw));
            Recorded(r) && JustArrived(r, d, data, DelayFor(s.faults.Of(d), draw))
  {
    var d := DirectionOf(source);
    var f := s.faults.Of(d);
    var a := Arrival(d, data, now, s.epoch, now + DelayFor(f, draw), source);
    DelayInRange(f, draw);
    TraceArrive(s.history, s.pending, s.epoch, s.sequence, s.clock, a);
    var r := Arrived(s, source, data, now, DelayFor(f, draw));
    assert r.history == s.history.(arrivals := s.history.arrivals + [a]) && r.clock == now && r.pending == s.pending;
    assert Traced(r.history, r.pending, r.epoch, r.sequence, r.clock);
  }

  lemma SentRecorded(s: State, e: Entry, sends: bool)
    requires Recorded(s) && Deliverable(s.history, s.pending, s.epoch, e.arrival, s.clock)
    requires s.history.arrivals[e.arrival].dir == e.dir
    ensures Recorded(Sent(s, e, sends))
  {
    TraceDeliver(s.history, s.pending, s.epoch, s.sequence, s.clock,
                 Delivery(e.arrival, e.dir, s.epoch, s.clock, e.data, e.item));
  }

  lemma SendNowRecorded(s: State, item: nat, d: Direction, data: seq<Byte>, sends: bool, arrival: nat)
    requires Recorded(s) && JustArrived(s, d, data, 0.0) && arrival == |s.history.arrivals| - 1
    ensures Recorded(Sent(Touch(s, item), Entry(s.clock, 0, item, d, data, arrival), sends))
  {
    ArrivalDeliverable(s.history, s.pending, s.epoch, s.sequence, s.clock);
    QuietRecorded(s, Touch(s, item));
    SentRecorded(Touch(s, item), Entry(s.clock, 0, item, d, data, arrival), sends);
  }

  lemma DelayRecorded(s: State, item: nat, d: Direction, data: seq<Byte>, delay: real, arrival: nat)
    requires Recorded(s) && JustArrived(s, d, data, delay) && delay > 0.0 && arrival == |s.history.arrivals| - 1
    ensures Recorded(Enqueued(s, item, d, data, delay, arrival))
  {
    var e := Entry(s.clock + delay, s.sequence + 1, item, d, data, arrival);
    PushTraced(s.history, s.pending, s.epoch, s.sequence, s.clock, e);
    var r := Enqueued(s, item, d, data, delay, arrival);
    assert r.pending == Push(s.pending, e) && r.sequence == s.sequence + 1;
    assert Traced(r.history, r.pending, r.epoch, r.sequence, r.clock);
  }

  lemma PushTraced(h: History, q: seq<Entry>, epoch: nat, sequence: nat, clock: real, e: Entry)
    requires Traced(h, q, epoch, sequence, clock) && Sorted(q) && h.arrivals != []
    requires e.arrival == |h.arrivals| - 1 && e.sequence == sequence + 1 && clock < e.deadline
    requires h.arrivals[e.arrival] == Arrival(e.dir, e.data, clock, epoch, e.deadline, h.arrivals[e.arrival].source)
    requires Undelivered(h, e.arrival) && forall k :: 0 <= k < |q| ==> q[k].arrival < e.arrival
    ensures Sorted(Push(q, e)) && Traced(h, Push(q, e), epoch, sequence + 1, clock)
  {
    TracePush(h, q, epoch, sequence, clock, e);
  }

  lemma RoutedRecorded(s: State, item: Option<nat>, d: Direction, data: seq<Byte>, draws: Draws, arrival: nat)
    requires Recorded(s) && JustArrived(s, d, data, DelayFor(s.faults.Of(d), draws.jitter))
    requires arrival == |s.history.arrivals| - 1
    ensures Recorded(Routed(s, item, d, data, draws, arrival))
  {
    var fate := FateOf(s.faults.Of(d), item.Some?, Full(s, data), draws);
    if fate.Drop? {
      DropRecorded(s, item, d, data, fate.reason);
    } else if fate.SendNow? {
      SendNowRecorded(s, item.value, d, data, draws.sends, arrival);
    } else {
      DelayedRecorded(s, item.value, d, data, fate.seconds, arrival);
    }
  }

  lemma DropRecorded(s: State, item: Option<nat>, d: Direction, data: seq<Byte>, reason: Reason)
    requires Recorded(s)
    ensures Recorded(Account(if item.Some? then Touch(s, item.value) else s, d, Dropped(reason), data))
  {
  }

  lemma DelayedRecorded(s: State, item: nat, d: Direction, data: seq<Byte>, delay: real, arrival: nat)
    requires Recorded(s) && JustArrived(s, d, data, delay) && delay > 0.0 && arrival == |s.history.arrivals| - 1
    ensures Recorded(Enqueued(Touch(s, item), item, d, data, delay, arrival))
  {
    TouchRecorded(s, item, d, data, delay);
    DelayRecorded(Touch(s, item), item, d, data, delay, arrival);
  }

  lemma ReceiveRecorded(s: State, source: Source, data: seq<Byte>, now: real, draws: Draws)
    requires Recorded(s) && Possible(s, Receive(source, data, now, draws))
    ensures Recorded(ReceivedFrom(s, source, data, now, draws))
  {
    var d := DirectionOf(source);
    var counted := Arrived(s, source, data, now, DelayFor(s.faults.Of(d), draws.jitter));
    ArrivedRecorded(s, source, data, now, draws.jitter);
    if source.FromClient? {
      var mapped := Mapped(counted, source.client, draws.connects);
      MappedRecorded(counted, source.client, draws.connects, d, data, DelayFor(s.faults.Of(d), draws.jitter));
      RoutedRecorded(mapped.0, mapped.1, d, data, draws, |s.history.arrivals|);
    } else {
      RoutedRecorded(counted, Some(source.item), d, data, draws, |s.history.arrivals|);
    }
  }

  lemma MappedRecorded(s: State, client: string, connects: bool, d: Direction, data: seq<Byte>, delay: real)
    requires Recorded(s) && JustArrived(s, d, data, delay)
    ensures Recorded(Mapped(s, client, connects).0) && JustArrived(Mapped(s, client, connects).0, d, data, delay)
    ensures Mapped(s, client, connects).0.history == s.history
  {
  }

  lemma PopOneRecorded(s: State, failing: set<nat>)
    requires Recorded(s) && HeadDue(s)
    ensures Recorded(PopOne(s, failing))
  {
    var e := s.pending[0];
    HeadDeliverable(s.history, s.pending, s.epoch, s.sequence, s.clock);
    assert EntryOk(s.history, e, s.epoch, s.sequence);
    SentRecorded(s.(pending := s.pending[1..], queuedBytes := s.queuedBytes - |e.data|), e, e.sequence !in failing);
  }

  lemma {:induction false} PopRecorded(s: State, failing: set<nat>)
    requires Recorded(s)
    ensures Recorded(Popped(s, failing))
    decreases |s.pending|
  {
    if HeadDue(s) {
      PopOneRecorded(s, failing);
      PopRecorded(PopOne(s, failing), failing);
    }
  }

  lemma EmptiedRecorded(s: State)
    requires Recorded(s)
    ensures Traced(s.history, [], s.epoch, s.sequence, s.clock)
  {
  }

  lemma StepRecorded(s: State, e: Event)
    requires Recorded(s) && Possible(s, e)
    ensures Recorded(After(s, e))
  {
    match e {
      case Receive(source, data, now, draws) =>
        ReceiveRecorded(s, source, data, now, draws);
      case Tick(now, failing) =>
        TraceClock(s.history, s.pending, s.epoch, s.sequence, s.clock, now);
        PopRecorded(s.(clock := now), failing);
      case Control(value) =>
        if Decide(s.faults, value).Set? {
          TraceReconfigure(s.history, s.pending, s.epoch, s.sequence, s.clock, Decide(s.faults, value).faults);
        }
      case Close =>
        EmptiedRecorded(s);
    }
  }

  // ---- Whole runs ------------------------------------------------------------------------

  /** A run the clock and the random source can produce. */
  ghost predicate Legal(s: State, events: seq<Event>)
    requires s.faults.Valid()
    decreases |events|
  {
    events == [] || (Possible(s, events[0]) && Legal(After(s, events[0]), events[1..]))
  }

  function Run(s: State, events: seq<Event>): (r: State)
    requires s.faults.Valid()
    ensures r.limits == s.limits
    decreases |events|
  {
    if events == [] then s else Run(After(s, events[0]), events[1..])
  }

  ghost predicate Sound(s: State) { Balanced(s) && Bounded(s) && Recorded(s) }

  lemma StepSound(s: State, e: Event)
    requires Sound(s) && s.faults.Valid() && Possible(s, e)
    ensures Sound(After(s, e))
  {
    StepBalanced(s, e);
    StepBounded(s, e);
    StepRecorded(s, e);
  }

  lemma InitialSound(limits: Limits, now: real)
    ensures Sound(Initial(limits, now)) && Initial(limits, now).faults.Valid()
  {
    ZeroBalanced();
  }

  lemma {:induction false} RunSound(s: State, events: seq<Event>)
    requires s.faults.Valid() && Sound(s) && Legal(s, events)
    ensures Sound(Run(s, events))
    decreases |events|
  {
    if events != [] {
      StepSound(s, events[0]);
      RunSound(After(s, events[0]), events[1..]);
    }
  }

  /** Received is forwarded, dropped or queued, after every run, in the totals and in the current epoch's counters. */
  lemma DatagramsConserved(limits: Limits, now: real, events: seq<Event>, d: Direction, c: PacketClass, thisEpoch: bool)
    requires Legal(Initial(limits, now), events)
    ensures var s := Run(Initial(limits, now), events);
            var side := (if thisEpoch then s.epochTotals else s.totals).Of(d);
            && side.received.packets == side.forwarded.packets + side.dropped.packets + Sum(s.pending, PacketsOf(d))
            && side.received.bytes == side.forwarded.bytes + side.dropped.bytes + Sum(s.pending, BytesOf(d))
            && Get(side.received.classes, c)
               == Get(side.forwarded.classes, c) + Get(side.dropped.classes, c) + Sum(s.pending, ClassesOf(d, c))
            && ReasonTotal(side.reasons) == side.dropped.packets
  {
    FinalBalanced(limits, now, events);
    var s := Run(Initial(limits, now), events);
    ConservedAt(if thisEpoch then s.epochTotals else s.totals, s.pending, d, c);
  }

  lemma FinalBalanced(limits: Limits, now: real, events: seq<Event>)
    requires Legal(Initial(limits, now), events)
    ensures Balanced(Run(Initial(limits, now), events))
  {
    InitialSound(limits, now);
    RunSound(Initial(limits, now), events);
  }

  lemma ConservedAt(counters: Counters, q: seq<Entry>, d: Direction, c: PacketClass)
    requires Conserved(counters, q)
    ensures var side := counters.Of(d);
            && side.received.packets == side.forwarded.packets + side.dropped.packets + Sum(q, PacketsOf(d))
            && side.received.bytes == side.forwarded.bytes + side.dropped.bytes + Sum(q, BytesOf(d))
            && Get(side.received.classes, c)
               == Get(side.forwarded.classes, c) + Get(side.dropped.classes, c) + Sum(q, ClassesOf(d, c))
            && ReasonTotal(side.reasons) == side.dropped.packets
  {
  }

  /** The queue and the mapping table never outgrow their limits, and the byte count is exact. */
  lemma LimitsHold(limits: Limits, now: real, events: seq<Event>)
    requires Legal(Initial(limits, now), events)
    ensures var s := Run(Initial(limits, now), events);
            && s.queuedBytes == Sum(s.pending, Size()) && s.queuedBytes <= limits.bytes
            && |s.pending| <= limits.datagrams && |s.mappings| <= limits.clients
            && s.queuedBytes <= s.highWaterQueueBytes && |s.mappings| <= s.highWaterMappings
  {
    FinalBounded(limits, now, events);
  }

  lemma FinalBounded(limits: Limits, now: real, events: seq<Event>)
    requires Legal(Initial(limits, now), events)
    ensures Bounded(Run(Initial(limits, now), events))
  {
    InitialSound(limits, now);
    RunSound(Initial(limits, now), events);
  }

  lemma FinalRecorded(limits: Limits, now: real, events: seq<Event>)
    requires Legal(Initial(limits, now), events)
    ensures Recorded(Run(Initial(limits, now), events))
  {
    InitialSound(limits, now);
    RunSound(Initial(limits, now), events);
  }

  // ---- Outages ---------------------------------------------------------------------------------

  /** Nothing was sent in a direction and epoch of outage, and nothing queued will be. */
  ghost predicate Lit(s: State) {
    && |s.history.faultsOf| == s.epoch + 1 && s.history.faultsOf[s.epoch] == s.faults
    && (forall x :: x in s.history.deliveries ==>
          x.epoch < |s.history.faultsOf| && !s.history.faultsOf[x.epoch].Of(x.dir).outage)
    && forall e :: e in s.pending ==> !s.faults.Of(e.dir).outage
  }

  lemma SentLit(s: State, e: Entry, sends: bool)
    requires Lit(s) && !s.faults.Of(e.dir).outage
    ensures Lit(Sent(s, e, sends))
  {
  }

  lemma RoutedLit(s: State, item: Option<nat>, d: Direction, data: seq<Byte>, draws: Draws, arrival: nat)
    requires Lit(s)
    ensures Lit(Routed(s, item, d, data, draws, arrival))
  {
    var fate := FateOf(s.faults.Of(d), item.Some?, Full(s, data), draws);
    if item.Some? {
      QuietLit(s, Touch(s, item.value));
    }
    if fate.Drop? {
      QuietLit(s, Account(if item.Some? then Touch(s, item.value) else s, d, Dropped(fate.reason), data));
    } else if fate.SendNow? {
      SentLit(Touch(s, item.value), Entry(s.clock, 0, item.value, d, data, arrival), draws.sends);
    } else {
      QueuedLit(Touch(s, item.value), item.value, d, data, fate.seconds, arrival);
    }
  }

  lemma QuietLit(s: State, r: State)
    requires Lit(s) && r.pending == s.pending && r.history.deliveries == s.history.deliveries
    requires r.history.faultsOf == s.history.faultsOf && r.epoch == s.epoch && r.faults == s.faults
    ensures Lit(r)
  {
  }

  lemma QueuedLit(s: State, item: nat, d: Direction, data: seq<Byte>, delay: real, arrival: nat)
    requires Lit(s) && !s.faults.Of(d).outage
    ensures Lit(Enqueued(s, item, d, data, delay, arrival))
  {
    PushMembers(s.pending, Entry(s.clock + delay, s.sequence + 1, item, d, data, arrival));
  }

  lemma ReceiveLit(s: State, source: Source, data: seq<Byte>, now: real, draws: Draws)
    requires Lit(s)
    ensures Lit(ReceivedFrom(s, source, data, now, draws))
  {
    var d := DirectionOf(source);
    var counted := Arrived(s, source, data, now, DelayFor(s.faults.Of(d), draws.jitter));
    var mapped := if source.FromClient? then Mapped(counted, source.client, draws.connects)
                  else (counted, Some(source.item));
    RoutedLit(mapped.0, mapped.1, d, data, draws, |s.history.arrivals|);
  }

  lemma {:induction false} PopLit(s: State, failing: set<nat>)
    requires Lit(s)
    ensures Lit(Popped(s, failing))
    decreases |s.pending|
  {
    if HeadDue(s) {
      var e := s.pending[0];
      assert e in s.pending;
      SentLit(s.(pending := s.pending[1..], queuedBytes := s.queuedBytes - |e.data|), e, e.sequence !in failing);
      PopLit(PopOne(s, failing), failing);
    }
  }

  lemma StepLit(s: State, e: Event)
    requires Lit(s) && s.faults.Valid()
    ensures Lit(After(s, e))
  {
    match e
    case Receive(source, data, now, draws) => ReceiveLit(s, source, data, now, draws);
    case Tick(now, failing) => PopLit(s.(clock := now), failing);
    case Control(_) =>
    case Close =>
  }

  lemma {:induction false} RunLit(s: State, events: seq<Event>)
    requires Lit(s) && s.faults.Valid()
    ensures Lit(Run(s, events))
    decreases |events|
  {
    if events != [] {
      StepLit(s, events[0]);
      RunLit(After(s, events[0]), events[1..]);
    }
  }

  /**
   No datagram is replayed, sent before it is due, carried into another epoch or sent during an outage; and without
   jitter none is reordered.
   */
  lemma NoReplayNoReorder(limits: Limits, now: real, events: seq<Event>, i: nat, j: nat)
    requires Legal(Initial(limits, now), events)
    requires i <= j < |Run(Initial(limits, now), events).history.deliveries|
    ensures var h := Run(Initial(limits, now), events).history;
            var x, y := h.deliveries[i], h.deliveries[j];
            && x.arrival < |h.arrivals| && y.arrival < |h.arrivals| && (i < j ==> x.arrival != y.arrival)
            && h.arrivals[y.arrival].epoch == y.epoch && h.arrivals[y.arrival].due <= y.at
            && h.arrivals[y.arrival].dir == y.dir && y.epoch < |h.faultsOf|
            && WithinFault(h.arrivals[y.arrival], h.faultsOf[y.epoch].Of(y.dir))
            && (i < j && x.epoch == y.epoch && x.dir == y.dir && h.faultsOf[y.epoch].Of(y.dir).jitterMs == 0.0
                ==> x.arrival < y.arrival)
            && !h.faultsOf[y.epoch].Of(y.dir).outage
  {
    RunLit(Initial(limits, now), events);
    FinalRecorded(limits, now, events);
    DeliveryAt(Run(Initial(limits, now), events), i, j);
  }

  lemma DeliveryAt(s: State, i: nat, j: nat)
    requires Recorded(s) && i <= j < |s.history.deliveries|
    ensures var h := s.history;
            var x, y := h.deliveries[i], h.deliveries[j];
            && x.arrival < |h.arrivals| && y.arrival < |h.arrivals| && (i < j ==> x.arrival != y.arrival)
            && h.arrivals[y.arrival].epoch == y.epoch && h.arrivals[y.arrival].due <= y.at
            && h.arrivals[y.arrival].dir == y.dir && y.epoch < |h.faultsOf|
            && WithinFault(h.arrivals[y.arrival], h.faultsOf[y.epoch].Of(y.dir))
            && (i < j && x.epoch == y.epoch && x.dir == y.dir && h.faultsOf[y.epoch].Of(y.dir).jitterMs == 0.0
                ==> x.arrival < y.arrival)
  {
  }
}
