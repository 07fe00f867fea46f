/** What the UDP fault injector does forward: all that is due at a tick, and at once what has no delay. */
module ChaosProgress {
  import opened Base
  import opened ChaosQueue
  import opened ChaosProxy
  import ChaosRuns

  predicate Open(s: State, item: nat) { item in s.items && !s.items[item].closed }

  /** Sending on an open mapping delivers and leaves the mappings open. */
  lemma SendingDelivers(s: State, e: Entry)
    requires Open(s, e.item)
    ensures var r := Sent(s, e, true);
            && r.history.deliveries
               == s.history.deliveries + [Delivery(e.arrival, e.dir, s.epoch, s.clock, e.data, e.item)]
            && forall i :: Open(s, i) ==> Open(r, i)
  {
  }

  lemma SendingKeeps(s: State, e: Entry, sends: bool)
    ensures var r := Sent(s, e, sends);
            && s.history.deliveries <= r.history.deliveries
            && r.epoch == s.epoch && r.clock == s.clock
            && forall i :: Open(s, i) ==> Open(r, i)
  {
  }

  lemma {:induction false} PoppingKeeps(s: State, failing: set<nat>)
    ensures s.history.deliveries <= Popped(s, failing).history.deliveries
    decreases |s.pending|
  {
    if HeadDue(s) {
      var e := s.pending[0];
      SendingKeeps(s.(pending := s.pending[1..], queuedBytes := s.queuedBytes - |e.data|), e, e.sequence !in failing);
      PoppingKeeps(PopOne(s, failing), failing);
    }
  }

  /** Popping goes on until nothing is due. */
  lemma {:induction false} PoppingDrains(s: State, failing: set<nat>)
    requires Sorted(s.pending)
    ensures forall e :: e in Popped(s, failing).pending ==> e in s.pending && e.deadline > s.clock
    decreases |s.pending|
  {
    if HeadDue(s) {
      PoppingDrains(PopOne(s, failing), failing);
    } else {
      forall e | e in s.pending ensures e.deadline > s.clock {
        var k: nat :| k < |s.pending| && s.pending[k] == e;
        assert k > 0 ==> Before(s.pending[0], s.pending[k]);
      }
    }
  }

  lemma HeadDelivers(s: State, failing: set<nat>)
    requires HeadDue(s) && Open(s, s.pending[0].item) && s.pending[0].sequence !in failing
    ensures var e := s.pending[0];
            Delivery(e.arrival, e.dir, s.epoch, s.clock, e.data, e.item) in Popped(s, failing).history.deliveries
  {
    var e := s.pending[0];
    var n := |s.history.deliveries|;
    SendingDelivers(s.(pending := s.pending[1..], queuedBytes := s.queuedBytes - |e.data|), e);
    PoppingKeeps(PopOne(s, failing), failing);
    assert PopOne(s, failing).history.deliveries[n] == Popped(s, failing).history.deliveries[n];
  }

  lemma {:induction false} PoppingDelivers(s: State, failing: set<nat>, e: Entry)
    requires Sorted(s.pending) && e in s.pending && e.deadline <= s.clock && Open(s, e.item) && e.sequence !in failing
    ensures Delivery(e.arrival, e.dir, s.epoch, s.clock, e.data, e.item) in Popped(s, failing).history.deliveries
    decreases |s.pending|
  {
    var k: nat :| k < |s.pending| && s.pending[k] == e;
    var head := s.pending[0];
    assert k > 0 ==> Before(head, e);
    assert HeadDue(s);
    if k == 0 {
      HeadDelivers(s, failing);
    } else {
      var rest := s.(pending := s.pending[1..], queuedBytes := s.queuedBytes - |head.data|);
      var next := PopOne(s, failing);
      SendingKeeps(rest, head, head.sequence !in failing);
      assert s.pending[1..][k - 1] == e;
      assert Open(next, e.item);
      PoppingDelivers(next, failing, e);
    }
  }

  /**
   In every reachable state: after a tick nothing that is due is left in the queue, and whatever was due on an open
   mapping and did not fail to send has been delivered, at that tick.
   */
  lemma TickForwardsAllDue(limits: Limits, start: real, events: seq<Event>, now: real, failing: set<nat>, e: Entry)
    requires ChaosRuns.Legal(Initial(limits, start), events)
    requires Possible(ChaosRuns.Run(Initial(limits, start), events), Tick(now, failing))
    ensures var s := ChaosRuns.Run(Initial(limits, start), events);
            var t := Ticked(s, now, failing);
            && (e in t.pending ==> e in s.pending && e.deadline > now)
            && (e in s.pending && e.deadline <= now && Open(s, e.item) && e.sequence !in failing ==>
                  Delivery(e.arrival, e.dir, s.epoch, now, e.data, e.item) in t.history.deliveries)
  {
    ChaosRuns.FinalRecorded(limits, start, events);
    var s := ChaosRuns.Run(Initial(limits, start), events);
    var at := s.(clock := now);
    PoppingDrains(at, failing);
    if e in s.pending && e.deadline <= now && Open(s, e.item) && e.sequence !in failing {
      assert Open(at, e.item);
      PoppingDelivers(at, failing, e);
    }
  }

  /** The mapping a datagram will use, if it has one or can be given one. */
  predicate Reachable(s: State, source: Source, connects: bool) {
    match source
    case FromServer(item) => Open(s, item)
    case FromClient(client) =>
      if client in s.mappings then Open(s, s.mappings[client]) else |s.mappings| < s.limits.clients && connects
  }

  /** Without outage, loss and delay, a datagram with a mapping, or that can get one, is delivered as it is received. */
  lemma UndisturbedIsDelivered(s: State, source: Source, data: seq<Byte>, now: real, draws: Draws)
    requires Reachable(s, source, draws.connects) && draws.sends
    requires var f := s.faults.Of(DirectionOf(source));
             !f.outage && !(f.loss != 0.0 && draws.loss < f.loss) && DelayFor(f, draws.jitter) == 0.0
    ensures var r := ReceivedFrom(s, source, data, now, draws);
            && |r.history.deliveries| == |s.history.deliveries| + 1
            && var x := r.history.deliveries[|s.history.deliveries|];
               x.arrival == |s.history.arrivals| && x.data == data && x.at == now && x.dir == DirectionOf(source)
  {
    var d := DirectionOf(source);
    var counted := Arrived(s, source, data, now, DelayFor(s.faults.Of(d), draws.jitter));
    match source
    case FromServer(item) =>
      AtOnce(counted, item, d, data, draws, |s.history.arrivals|);
    case FromClient(client) =>
      var (mapped, item) := Mapped(counted, client, draws.connects);
      AtOnce(mapped, item.value, d, data, draws, |s.history.arrivals|);
  }

  lemma AtOnce(s: State, item: nat, d: Direction, data: seq<Byte>, draws: Draws, arrival: nat)
    requires Open(s, item) && draws.sends
    requires FateOf(s.faults.Of(d), true, Full(s, data), draws) == SendNow
    ensures Routed(s, Some(item), d, data, draws, arrival).history.deliveries
         == s.history.deliveries + [Delivery(arrival, d, s.epoch, s.clock, data, item)]
  {
    SendingDelivers(Touch(s, item), Entry(s.clock, 0, item, d, data, arrival));
  }
}
