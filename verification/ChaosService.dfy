/**
 The UDP fault injector as the object it is (scripts/udp-chaos-proxy.py): every method updates the fields in
 place and is proved to make exactly the step that the run theorems are about.
 */
module ChaosService {
  import opened Base
  import opened ChaosQueue
  import opened ChaosProxy

  lemma CloseNone(s: State)
    ensures CloseMappings(s, {}) == s
  {
  }

  /** Closing one more mapping. */
  lemma CloseOneMore(s: State, closed: set<string>, client: string)
    requires client in s.mappings && client !in closed
    ensures CloseMappings(CloseMappings(s, closed), {client}) == CloseMappings(s, closed + {client})
    ensures client in CloseMappings(s, closed).mappings
    ensures CloseMappings(s, closed).mappings[client] == s.mappings[client]
    ensures Idle(CloseMappings(s, closed), client) <==> Idle(s, client)
  {
  }

  /** The idle ones among some clients. */
  function IdleAmong(s: State, clients: set<string>): (r: set<string>) { set c | c in clients && Idle(s, c) }

  lemma CloseIdleStep(s: State, done: set<string>, client: string)
    requires client in s.mappings && client !in done
    ensures var t := CloseMappings(s, IdleAmong(s, done));
            && client in t.mappings
            && (if Idle(t, client) then CloseMappings(t, {client}) else t)
               == CloseMappings(s, IdleAmong(s, done + {client}))
  {
  }

  lemma IdleAll(s: State)
    ensures IdleAmong(s, s.mappings.Keys) == set c | c in s.mappings && Idle(s, c)
  {
  }

  /** Queueing changes four fields. */
  lemma EnqueuedFields(s: State, t: State, item: nat, d: Direction, data: seq<Byte>, delay: real, arrival: nat,
                       e: Entry)
    requires e == Entry(s.clock + delay, s.sequence + 1, item, d, data, arrival)
    requires t.pending == Push(s.pending, e) && t.sequence == s.sequence + 1
    requires t.queuedBytes == s.queuedBytes + |data|
    requires t.highWaterQueueBytes
          == if s.highWaterQueueBytes < t.queuedBytes then t.queuedBytes else s.highWaterQueueBytes
    requires t == s.(pending := t.pending, sequence := t.sequence, queuedBytes := t.queuedBytes,
                     highWaterQueueBytes := t.highWaterQueueBytes)
    ensures t == Enqueued(s, item, d, data, delay, arrival)
  {
  }

  /** A new mapping changes four fields. */
  lemma MappedFields(s: State, t: State, client: string)
    requires client !in s.mappings && |s.mappings| < s.limits.clients
    requires t.mappings == s.mappings[client := s.created] && t.created == s.created + 1
    requires t.items == s.items[s.created := Item(client, s.clock, false)]
    requires t.highWaterMappings == if s.highWaterMappings < |t.mappings| then |t.mappings| else s.highWaterMappings
    requires t == s.(mappings := t.mappings, items := t.items, created := t.created,
                     highWaterMappings := t.highWaterMappings)
    ensures t == Mapped(s, client, true).0
  {
  }

  class Proxy {
    const limits: Limits
    var faults: Faults
    var epoch: nat
    var totals: Counters
    var epochTotals: Counters
    var mappings: map<string, nat>
    var items: map<nat, Item>
    var created: nat
    var pending: seq<Entry>
    var queuedBytes: int
    var sequence: nat
    var highWaterMappings: nat
    var highWaterQueueBytes: int
    var lastTransitionDropped: nat
    var socketErrors: nat
    var stopReason: Option<string>
    /** The latest reading of the clock. */
    var clock: real
    /** How many datagrams have come in, which numbers the next one. */
    var arrivals: nat
    /** What has come in and gone out so far. */
    ghost var history: History

    ghost function View(): State
      reads this
    {
      State(limits, faults, epoch, totals, epochTotals, mappings, items, created, pending, queuedBytes, sequence,
            highWaterMappings, highWaterQueueBytes, lastTransitionDropped, socketErrors, stopReason, history, clock)
    }

    constructor (limits: Limits, now: real)
      ensures View() == Initial(limits, now) && arrivals == 0
    {
      this.limits := limits;
      faults, epoch, totals, epochTotals := Faults(NO_FAULT, NO_FAULT), 0, ZERO, ZERO;
      mappings, items, created := map[], map[], 0;
      pending, queuedBytes, sequence := [], 0, 0;
      highWaterMappings, highWaterQueueBytes, lastTransitionDropped, socketErrors := 0, 0, 0, 0;
      stopReason, clock, arrivals := None, now, 0;
      history := History([], [], [Faults(NO_FAULT, NO_FAULT)]);
    }

    method Count(d: Direction, action: Action, data: seq<Byte>)
      modifies this`totals, this`epochTotals
      ensures View() == Account(old(View()), d, action, data) && arrivals == old(arrivals)
    {
      totals := Counted(totals, d, action, data);
      epochTotals := Counted(epochTotals, d, action, data);
    }

    method DiscardPending(reason: Reason)
      modifies this
      ensures View() == Discarded(old(View()), reason) && arrivals == old(arrivals)
    {
      ghost var whole := DiscardAll(View(), pending, reason);
      var i := 0;
      while i < |pending|
        invariant 0 <= i <= |pending| && pending == old(pending) && arrivals == old(arrivals)
        invariant DiscardAll(View(), pending[i..], reason) == whole
      {
        assert pending[i..][1..] == pending[i + 1..];
        Count(pending[i].dir, Dropped(reason), pending[i].data);
        i := i + 1;
      }
      pending := [];
      queuedBytes := 0;
    }

    /** A control command; one that is rejected changes nothing. */
    method Command(value: Json) returns (ok: bool)
      requires faults.Valid()
      modifies this
      ensures View() == Commanded(old(View()), value) && arrivals == old(arrivals)
      ensures ok <==> Decide(old(faults), value) != Reject
      ensures !ok ==> View() == old(View())
    {
      match Decide(faults, value)
      case Reject =>
        return false;
      case Status =>
        return true;
      case Stop =>
        stopReason := Some("control_stop");
        return true;
      case Set(next) =>
        Reconfigure(next);
        return true;
    }

    method Reconfigure(next: Faults)
      modifies this
      ensures View() == NextEpoch(old(View()), next) && arrivals == old(arrivals)
    {
      var dropped := |pending|;
      lastTransitionDropped := dropped;
      NextEpochInSteps(old(View()), next);
      DiscardPending(Reconfigured);
      BeginEpoch(next);
    }

    method BeginEpoch(next: Faults)
      modifies this`faults, this`epoch, this`epochTotals, this`history
      ensures View() == old(View()).(faults := next, epoch := old(epoch) + 1, epochTotals := ZERO,
                                     history := old(history).(faultsOf := old(history.faultsOf) + [next]))
      ensures arrivals == old(arrivals)
    {
      faults, epoch, epochTotals := next, epoch + 1, ZERO;
      history := history.(faultsOf := history.faultsOf + [next]);
    }

    method MappingFor(client: string, connects: bool) returns (item: Option<nat>)
      modifies this
      ensures (View(), item) == Mapped(old(View()), client, connects) && arrivals == old(arrivals)
    {
      if client in mappings {
        return Some(mappings[client]);
      }
      if |mappings| >= limits.clients {
        return None;
      }
      if !connects {
        socketErrors := socketErrors + 1;
        return None;
      }
      item := Some(created);
      AddMapping(client);
      MappedFields(old(View()), View(), client);
    }

    method AddMapping(client: string)
      modifies this`mappings, this`items, this`created, this`highWaterMappings
      ensures mappings == old(mappings)[client := old(created)] && created == old(created) + 1
      ensures items == old(items)[old(created) := Item(client, clock, false)]
      ensures highWaterMappings == if old(highWaterMappings) < |mappings| then |mappings| else old(highWaterMappings)
    {
      mappings := mappings[client := created];
      AddItem(Item(client, clock, false));
      NoteMappings(|mappings|);
    }

    method AddItem(item: Item)
      modifies this`items, this`created
      ensures items == old(items)[old(created) := item] && created == old(created) + 1
    {
      items := items[created := item];
      created := created + 1;
    }

    method NoteMappings(count: nat)
      modifies this`highWaterMappings
      ensures highWaterMappings == if old(highWaterMappings) < count then count else old(highWaterMappings)
    {
      if highWaterMappings < count {
        highWaterMappings := count;
      }
    }

    method TouchItem(item: nat)
      modifies this`items
      ensures View() == Touch(old(View()), item) && arrivals == old(arrivals)
    {
      if item in items {
        items := items[item := items[item].(touched := clock)];
      }
    }

    method Forward(e: Entry, sends: bool)
      modifies this
      ensures View() == Sent(old(View()), e, sends) && arrivals == old(arrivals)
    {
      if e.item !in items || items[e.item].closed {
        Count(e.dir, Dropped(MappingExpired), e.data);
        return;
      }
      if !sends {
        socketErrors := socketErrors + 1;
        Count(e.dir, Dropped(SocketError), e.data);
        return;
      }
      TouchItem(e.item);
      Count(e.dir, Forwarded, e.data);
      history := history.(deliveries :=
        history.deliveries + [Delivery(e.arrival, e.dir, epoch, clock, e.data, e.item)]);
    }

    method Enqueue(item: nat, d: Direction, data: seq<Byte>, delay: real, arrival: nat)
      modifies this
      ensures View() == Enqueued(old(View()), item, d, data, delay, arrival) && arrivals == old(arrivals)
    {
      var e := Entry(clock + delay, sequence + 1, item, d, data, arrival);
      PushPending(e);
      CountQueued(|data|);
      EnqueuedFields(old(View()), View(), item, d, data, delay, arrival, e);
    }

    method PushPending(e: Entry)
      requires e.sequence == sequence + 1
      modifies this`pending, this`sequence
      ensures sequence == e.sequence && pending == Push(old(pending), e)
    {
      sequence := e.sequence;
      pending := Push(pending, e);
    }

    method CountQueued(size: nat)
      modifies this`queuedBytes, this`highWaterQueueBytes
      ensures queuedBytes == old(queuedBytes) + size
      ensures highWaterQueueBytes
           == if old(highWaterQueueBytes) < queuedBytes then queuedBytes else old(highWaterQueueBytes)
    {
      queuedBytes := queuedBytes + size;
      if highWaterQueueBytes < queuedBytes {
        highWaterQueueBytes := queuedBytes;
      }
    }

    method Receive(source: Source, data: seq<Byte>, now: real, draws: Draws)
      requires arrivals == |history.arrivals|
      modifies this
      ensures View() == ReceivedFrom(old(View()), source, data, now, draws) && arrivals == old(arrivals) + 1
    {
      var d := DirectionOf(source);
      var arrival := arrivals;
      Accept(source, data, now, DelayFor(faults.Of(d), draws.jitter));
      var item: Option<nat>;
      match source
      case FromClient(client) =>
        item := MappingFor(client, draws.connects);
        Route(item, d, data, draws, arrival);
      case FromServer(n) =>
        item := Some(n);
        Route(item, d, data, draws, arrival);
    }

    /** Counts a datagram in and writes it down. */
    method Accept(source: Source, data: seq<Byte>, now: real, ghost delay: real)
      modifies this`clock, this`arrivals, this`history, this`totals, this`epochTotals
      ensures View() == Arrived(old(View()), source, data, now, delay) && arrivals == old(arrivals) + 1
    {
      ghost var a := Arrival(DirectionOf(source), data, now, epoch, now + delay, source);
      Count(DirectionOf(source), Received, data);
      clock, arrivals := now, arrivals + 1;
      history := history.(arrivals := history.arrivals + [a]);
    }

    /** The rest of a receive, once the mapping is known or refused. */
    method Route(item: Option<nat>, d: Direction, data: seq<Byte>, draws: Draws, arrival: nat)
      modifies this
      ensures View() == Routed(old(View()), item, d, data, draws, arrival) && arrivals == old(arrivals)
    {
      if item.None? {
        Count(d, Dropped(MappingLimitOrError), data);
        return;
      }
      TouchItem(item.value);
      var fault := faults.Of(d);
      if fault.outage {
        Count(d, Dropped(Outage), data);
        return;
      }
      if fault.loss != 0.0 && draws.loss < fault.loss {
        Count(d, Dropped(Loss), data);
        return;
      }
      var delay := DelayFor(fault, draws.jitter);
      if delay == 0.0 {
        Forward(Entry(clock, 0, item.value, d, data, arrival), draws.sends);
      } else if |pending| >= limits.datagrams || queuedBytes + |data| > limits.bytes {
        Count(d, Dropped(QueueLimit), data);
      } else {
        Enqueue(item.value, d, data, delay, arrival);
      }
    }

    /** Sends everything due, then closes the idle mappings. */
    method Tick(now: real, failing: set<nat>)
      modifies this
      ensures View() == Ticked(old(View()), now, failing) && arrivals == old(arrivals)
    {
      clock := now;
      ForwardDue(failing);
      CloseIdle();
    }

    method ForwardDue(failing: set<nat>)
      modifies this
      ensures View() == Popped(old(View()), failing) && arrivals == old(arrivals)
    {
      while pending != [] && pending[0].deadline <= clock
        invariant Popped(View(), failing) == Popped(old(View()), failing) && arrivals == old(arrivals)
        decreases |pending|
      {
        ForwardHead(failing);
      }
    }

    method ForwardHead(failing: set<nat>)
      requires pending != []
      modifies this
      ensures View() == PopOne(old(View()), failing) && arrivals == old(arrivals)
    {
      var e := pending[0];
      pending := pending[1..];
      queuedBytes := queuedBytes - |e.data|;
      Forward(e, e.sequence !in failing);
    }

    method CloseIdle()
      modifies this
      ensures View() == CloseMappings(old(View()), set c | c in old(mappings) && Idle(old(View()), c))
      ensures arrivals == old(arrivals)
    {
      ghost var before := View();
      var rest := mappings.Keys;
      ghost var done: set<string> := {};
      CloseNone(View());
      while rest != {}
        invariant rest !! done && rest + done == before.mappings.Keys && arrivals == old(arrivals)
        invariant View() == CloseMappings(before, IdleAmong(before, done))
        decreases |rest|
      {
        var client :| client in rest;
        CloseIdleStep(before, done, client);
        CloseIfIdle(client);
        rest := rest - {client};
        done := done + {client};
      }
      IdleAll(before);
    }

    method CloseIfIdle(client: string)
      requires client in mappings
      modifies this
      ensures View() == if Idle(old(View()), client) then CloseMappings(old(View()), {client}) else old(View())
      ensures arrivals == old(arrivals)
    {
      var item := mappings[client];
      if item in items && clock - items[item].touched >= limits.idleSeconds {
        CloseMapping(client);
      }
    }

    method CloseMapping(client: string)
      requires client in mappings
      modifies this
      ensures View() == CloseMappings(old(View()), {client}) && arrivals == old(arrivals)
    {
      assert (set c | c in {client} && c in mappings :: mappings[c]) == {mappings[client]};
      items := CloseItems(items, {mappings[client]});
      mappings := mappings - {client};
    }

    method Close()
      modifies this
      ensures View() == ClosedDown(old(View())) && arrivals == old(arrivals)
    {
      DiscardPending(Shutdown);
      ghost var discarded := View();
      var rest := mappings.Keys;
      ghost var closed: set<string> := {};
      CloseNone(View());
      while rest != {}
        invariant rest !! closed && rest + closed == discarded.mappings.Keys && arrivals == old(arrivals)
        invariant View() == CloseMappings(discarded, closed)
        decreases |rest|
      {
        var client :| client in rest;
        CloseOneMore(discarded, closed, client);
        CloseMapping(client);
        rest := rest - {client};
        closed := closed + {client};
      }
    }
  }

  /** The steps in the order the method makes them. */
  lemma NextEpochInSteps(s: State, next: Faults)
    ensures NextEpoch(s, next) == Discarded(s.(lastTransitionDropped := |s.pending|), Reconfigured).(
                faults := next, epoch := s.epoch + 1, epochTotals := ZERO,
                history := s.history.(faultsOf := s.history.faultsOf + [next]))
  {
    DiscardFrame(s, s.(lastTransitionDropped := |s.pending|), s.pending, Reconfigured);
  }

  /** Discarding does not look at the field that remembers how much was discarded. */
  lemma {:induction false} DiscardFrame(s: State, t: State, q: seq<Entry>, reason: Reason)
    requires t == s.(lastTransitionDropped := t.lastTransitionDropped)
    ensures DiscardAll(t, q, reason) == DiscardAll(s, q, reason).(lastTransitionDropped := t.lastTransitionDropped)
    decreases |q|
  {
    if q != [] {
      DiscardFrame(Account(s, q[0].dir, Dropped(reason), q[0].data), Account(t, q[0].dir, Dropped(reason), q[0].data),
                   q[1..], reason);
    }
  }
}
