/**
 What the UDP fault injector does with a datagram, a command and a tick, said outright: which fault drops it and how
 that is counted, how long it is held, what a command changes, and which mappings a tick closes.
 */
module ChaosFates {
  import opened Base
  import opened ChaosQueue
  import opened ChaosProxy

  // ---- Counting ---------------------------------------------------------------------------

  predicate OneMoreIn(before: Tally, after: Tally, data: seq<Byte>) {
    && after.packets == before.packets + 1 && after.bytes == before.bytes + |data|
    && forall c :: Get(after.classes, c) == Get(before.classes, c) + if c == ClassOf(data) then 1 else 0
  }

  /** One datagram dropped for this reason in this direction, and nothing else counted but its arrival. */
  predicate CountedDrop(before: Counters, after: Counters, d: Direction, data: seq<Byte>, reason: Reason) {
    && OneMoreIn(before.Of(d).received, after.Of(d).received, data)
    && OneMoreIn(before.Of(d).dropped, after.Of(d).dropped, data)
    && after.Of(d).forwarded == before.Of(d).forwarded
    && (forall r :: Get(after.Of(d).reasons, r) == Get(before.Of(d).reasons, r) + if r == reason then 1 else 0)
    && forall e :: e != d ==> after.Of(e) == before.Of(e)
  }

  /** One datagram forwarded in this direction, and nothing else counted but its arrival. */
  predicate CountedSend(before: Counters, after: Counters, d: Direction, data: seq<Byte>) {
    && OneMoreIn(before.Of(d).received, after.Of(d).received, data)
    && OneMoreIn(before.Of(d).forwarded, after.Of(d).forwarded, data)
    && after.Of(d).dropped == before.Of(d).dropped && after.Of(d).reasons == before.Of(d).reasons
    && forall e :: e != d ==> after.Of(e) == before.Of(e)
  }

  /** One datagram counted in, and nothing else. */
  predicate CountedIn(before: Counters, after: Counters, d: Direction, data: seq<Byte>) {
    && OneMoreIn(before.Of(d).received, after.Of(d).received, data)
    && after.Of(d).forwarded == before.Of(d).forwarded && after.Of(d).dropped == before.Of(d).dropped
    && after.Of(d).reasons == before.Of(d).reasons
    && forall e :: e != d ==> after.Of(e) == before.Of(e)
  }

  lemma CountingIn(c: Counters, d: Direction, data: seq<Byte>)
    ensures CountedIn(c, Counted(c, d, Received, data), d, data)
  {
    TallyPlus(c.Of(d).received, data);
  }

  lemma CountingDrop(c: Counters, counted: Counters, d: Direction, data: seq<Byte>, reason: Reason)
    requires CountedIn(c, counted, d, data)
    ensures CountedDrop(c, Counted(counted, d, Dropped(reason), data), d, data, reason)
  {
    TallyPlus(counted.Of(d).dropped, data);
  }

  lemma CountingSend(c: Counters, counted: Counters, d: Direction, data: seq<Byte>)
    requires CountedIn(c, counted, d, data)
    ensures CountedSend(c, Counted(counted, d, Forwarded, data), d, data)
  {
    TallyPlus(counted.Of(d).forwarded, data);
  }

  lemma TallyPlus(t: Tally, data: seq<Byte>)
    ensures OneMoreIn(t, t.Plus(data), data)
  {
  }

  // ---- One datagram --------------------------------------------------------------------------

  datatype Ending = DroppedFor(reason: Reason) | SentAtOnce | HeldUntil(due: real)

  /**
   How a datagram ends, fault by fault in their order: no mapping, outage, loss drawn, no delay, no room, and
   otherwise held for its delay. Times are in seconds and delays in milliseconds.
   */
  function EndingFor(f: Fault, mapped: bool, open: bool, room: bool, draws: Draws, now: real): (r: Ending) {
    if !mapped then DroppedFor(MappingLimitOrError)
    else if f.outage then DroppedFor(Outage)
    else if 0.0 < f.loss && draws.loss < f.loss then DroppedFor(Loss)
    else if f.delayMs + draws.jitter <= 0.0 then
      if !open then DroppedFor(MappingExpired) else if !draws.sends then DroppedFor(SocketError) else SentAtOnce
    else if !room then DroppedFor(QueueLimit)
    else HeldUntil(now + (f.delayMs + draws.jitter) / 1000.0)
  }

  /** What an ending means for the queue, the deliveries and the counters. */
  predicate Ends(s: State, r: State, d: Direction, data: seq<Byte>, now: real, item: nat, ending: Ending) {
    match ending
    case DroppedFor(reason) =>
      && r.pending == s.pending && r.history.deliveries == s.history.deliveries
      && CountedDrop(s.totals, r.totals, d, data, reason) && CountedDrop(s.epochTotals, r.epochTotals, d, data, reason)
    case SentAtOnce =>
      && r.pending == s.pending
      && r.history.deliveries == s.history.deliveries + [Delivery(|s.history.arrivals|, d, s.epoch, now, data, item)]
      && CountedSend(s.totals, r.totals, d, data) && CountedSend(s.epochTotals, r.epochTotals, d, data)
    case HeldUntil(due) =>
      && r.history.deliveries == s.history.deliveries
      && r.pending == Push(s.pending, Entry(due, s.sequence + 1, item, d, data, |s.history.arrivals|))
      && CountedIn(s.totals, r.totals, d, data) && CountedIn(s.epochTotals, r.epochTotals, d, data)
  }

  /** The datagram has a mapping or can be given one. */
  predicate Mappable(s: State, source: Source, connects: bool) {
    source.FromServer? || source.client in s.mappings || (|s.mappings| < s.limits.clients && connects)
  }

  /** The number of the mapping it uses. */
  function Using(s: State, source: Source): (item: nat) {
    match source
    case FromServer(item) => item
    case FromClient(client) => if client in s.mappings then s.mappings[client] else s.created
  }

  predicate OpenItem(s: State, item: nat) { item in s.items && !s.items[item].closed }

  /** The mapping a datagram uses is open; a new one always is. */
  predicate Open(s: State, source: Source) {
    OpenItem(s, Using(s, source)) || (source.FromClient? && source.client !in s.mappings)
  }

  predicate Room(s: State, data: seq<Byte>) {
    |s.pending| < s.limits.datagrams && s.queuedBytes + |data| <= s.limits.bytes
  }

  /** Every received datagram ends as its fault, its mapping and the room in the queue say. */
  lemma FateOfDatagram(s: State, source: Source, data: seq<Byte>, now: real, draws: Draws)
    requires s.faults.Valid()
    ensures var (d, f) := if source.FromServer? then (ServerToClient, s.faults.s2c) else (ClientToServer, s.faults.c2s);
            Ends(s, ReceivedFrom(s, source, data, now, draws), d, data, now, Using(s, source),
                 EndingFor(f, Mappable(s, source, draws.connects), Open(s, source), Room(s, data), draws, now))
  {
    var d := DirectionOf(source);
    var counted := Arrived(s, source, data, now, DelayFor(s.faults.Of(d), draws.jitter));
    CountingIn(s.totals, d, data);
    CountingIn(s.epochTotals, d, data);
    match source
    case FromServer(item) =>
      RoutedFate(s, counted, Some(item), d, data, draws, item);
    case FromClient(client) =>
      ClientFate(s, counted, client, data, draws);
  }

  lemma ClientFate(s: State, t: State, client: string, data: seq<Byte>, draws: Draws)
    requires s.faults.Valid() && Counting(s, t, ClientToServer, data)
    requires t.mappings == s.mappings && t.items == s.items && t.created == s.created
    ensures var (mapped, item) := Mapped(t, client, draws.connects);
            var source := FromClient(client);
            var r := Routed(mapped, item, ClientToServer, data, draws, |s.history.arrivals|);
            Ends(s, r, ClientToServer, data, t.clock,
                 Using(s, source), EndingFor(s.faults.c2s, Mappable(s, source, draws.connects), Open(s, source),
                                             Room(s, data), draws, t.clock))
  {
    var (mapped, item) := Mapped(t, client, draws.connects);
    RoutedFate(s, mapped, item, ClientToServer, data, draws, Using(s, FromClient(client)));
  }

  /** Counted in and written down, and the queue not yet touched. */
  predicate Counting(s: State, t: State, d: Direction, data: seq<Byte>) {
    && t.faults == s.faults && t.limits == s.limits && t.pending == s.pending && t.epoch == s.epoch
    && t.queuedBytes == s.queuedBytes && t.sequence == s.sequence && t.history.deliveries == s.history.deliveries
    && CountedIn(s.totals, t.totals, d, data) && CountedIn(s.epochTotals, t.epochTotals, d, data)
  }

  lemma DelayIs(f: Fault, draw: real)
    ensures f.delayMs + draw <= 0.0 ==> DelayFor(f, draw) == 0.0
    ensures f.delayMs + draw > 0.0 ==> DelayFor(f, draw) == (f.delayMs + draw) / 1000.0 > 0.0
  {
  }

  lemma FateIsEnding(f: Fault, mapped: bool, open: bool, full: bool, draws: Draws, now: real)
    requires f.Valid()
    ensures EndingFor(f, mapped, open, !full, draws, now)
         == match FateOf(f, mapped, full, draws)
            case Drop(reason) => DroppedFor(reason)
            case SendNow =>
              if !open then DroppedFor(MappingExpired) else if !draws.sends then DroppedFor(SocketError) else SentAtOnce
            case Delay(seconds) => HeldUntil(now + seconds)
  {
    DelayIs(f, draws.jitter);
  }

  /** Once counted in and mapped. */
  lemma RoutedFate(s: State, t: State, item: Option<nat>, d: Direction, data: seq<Byte>, draws: Draws, n: nat)
    requires s.faults.Valid() && Counting(s, t, d, data) && (item.Some? ==> item.value == n)
    ensures Ends(s, Routed(t, item, d, data, draws, |s.history.arrivals|), d, data, t.clock, n,
                 EndingFor(s.faults.Of(d), item.Some?, OpenItem(t, n), Room(s, data), draws, t.clock))
  {
    var f := s.faults.Of(d);
    assert f.Valid();
    FateIsEnding(f, item.Some?, OpenItem(t, n), Full(t, data), draws, t.clock);
    assert Full(t, data) <==> !Room(s, data);
    var fate := FateOf(f, item.Some?, Full(t, data), draws);
    if fate.Drop? {
      DropFate(s, t, if item.Some? then Touch(t, n) else t, d, data, n, fate.reason);
    } else if fate.SendNow? {
      SendFate(s, t, n, d, data, draws.sends);
    } else {
      HoldFate(s, t, n, d, data, fate.seconds);
    }
  }

  lemma DropFate(s: State, t: State, u: State, d: Direction, data: seq<Byte>, item: nat, reason: Reason)
    requires Counting(s, t, d, data) && u == t.(items := u.items)
    ensures Ends(s, Account(u, d, Dropped(reason), data), d, data, t.clock, item, DroppedFor(reason))
  {
    CountingDrop(s.totals, t.totals, d, data, reason);
    CountingDrop(s.epochTotals, t.epochTotals, d, data, reason);
  }

  lemma HoldFate(s: State, t: State, item: nat, d: Direction, data: seq<Byte>, delay: real)
    requires Counting(s, t, d, data)
    ensures Ends(s, Enqueued(Touch(t, item), item, d, data, delay, |s.history.arrivals|), d, data, t.clock, item,
                 HeldUntil(t.clock + delay))
  {
  }

  lemma SendFate(s: State, t: State, item: nat, d: Direction, data: seq<Byte>, sends: bool)
    requires Counting(s, t, d, data)
    ensures var r := Sent(Touch(t, item), Entry(t.clock, 0, item, d, data, |s.history.arrivals|), sends);
            Ends(s, r, d, data, t.clock,
                 item, if !OpenItem(t, item) then DroppedFor(MappingExpired)
                       else if !sends then DroppedFor(SocketError) else SentAtOnce)
  {
    if !OpenItem(t, item) {
      DropFate(s, t, Touch(t, item), d, data, item, MappingExpired);
    } else if !sends {
      DropFate(s, t, Touch(t, item), d, data, item, SocketError);
    } else {
      CountingSend(s.totals, t.totals, d, data);
      CountingSend(s.epochTotals, t.epochTotals, d, data);
    }
  }

  /** The gauges a receive moves: the high water marks, and when the mapping was last used. */
  lemma GaugesMove(s: State, source: Source, data: seq<Byte>, now: real, draws: Draws)
    requires Bounded(s)
    ensures var r := ReceivedFrom(s, source, data, now, draws);
            && r.highWaterQueueBytes
               == (if s.highWaterQueueBytes < r.queuedBytes then r.queuedBytes else s.highWaterQueueBytes)
            && r.highWaterMappings
               == (if s.highWaterMappings < |r.mappings| then |r.mappings| else s.highWaterMappings)
            && (Mappable(s, source, draws.connects) && Using(s, source) in r.items ==>
                  r.items[Using(s, source)].touched == now)
  {
    var d := DirectionOf(source);
    var counted := Arrived(s, source, data, now, DelayFor(s.faults.Of(d), draws.jitter));
    match source
    case FromServer(item) =>
      RoutedGauges(counted, Some(item), d, data, draws, |s.history.arrivals|);
    case FromClient(client) =>
      var (mapped, item) := Mapped(counted, client, draws.connects);
      RoutedGauges(mapped, item, d, data, draws, |s.history.arrivals|);
  }

  predicate Gauged(t: State, r: State, item: Option<nat>) {
    && r.mappings == t.mappings && r.highWaterMappings == t.highWaterMappings && r.items.Keys == t.items.Keys
    && r.highWaterQueueBytes == (if t.highWaterQueueBytes < r.queuedBytes then r.queuedBytes else t.highWaterQueueBytes)
    && (item.Some? && item.value in r.items ==> r.items[item.value].touched == t.clock)
  }

  lemma RoutedGauges(t: State, item: Option<nat>, d: Direction, data: seq<Byte>, draws: Draws, arrival: nat)
    requires t.queuedBytes <= t.highWaterQueueBytes
    ensures Gauged(t, Routed(t, item, d, data, draws, arrival), item)
  {
    var fate := FateOf(t.faults.Of(d), item.Some?, Full(t, data), draws);
    if item.Some? {
      TouchGauges(t, item.value);
      var u := Touch(t, item.value);
      if fate.SendNow? {
        SentGauges(t, u, Entry(t.clock, 0, item.value, d, data, arrival), draws.sends);
      } else if fate.Delay? {
        HeldGauges(t, u, item.value, d, data, fate.seconds, arrival);
      }
    }
  }

  lemma TouchGauges(t: State, item: nat)
    requires t.queuedBytes <= t.highWaterQueueBytes
    ensures Gauged(t, Touch(t, item), Some(item))
  {
  }

  lemma SentGauges(t: State, u: State, e: Entry, sends: bool)
    requires Gauged(t, u, Some(e.item)) && u.clock == t.clock
    ensures Gauged(t, Sent(u, e, sends), Some(e.item))
  {
  }

  lemma HeldGauges(t: State, u: State, item: nat, d: Direction, data: seq<Byte>, delay: real, arrival: nat)
    requires Gauged(t, u, Some(item)) && u.queuedBytes == t.queuedBytes <= t.highWaterQueueBytes
    ensures Gauged(t, Enqueued(u, item, d, data, delay, arrival), Some(item))
  {
  }

  // ---- Commands --------------------------------------------------------------------------------

  /** The change a command names for one direction: none at all when it does not name the direction. */
  function ChangeFor(members: map<string, Json>, direction: string): (r: Json) {
    if direction in members then members[direction] else Object(map[])
  }

  predicate WellFormed(value: Json) {
    && value.Object? && (forall key :: key in value.members ==> key in {"id", "op", "c2s", "s2c"})
    && ("id" in value.members ==> value.members["id"].Null? || value.members["id"].Text? || value.members["id"].Int?)
    && "op" in value.members
  }

  /**
   What a command does. A set is accepted exactly with acceptable changes; each direction then takes its own, in a
   new epoch with an empty queue and fresh counters. Stop and status take no faults; stop is noted and status
   changes nothing, like everything that is rejected.
   */
  lemma CommandMeans(s: State, value: Json)
    requires s.faults.Valid()
    ensures var r := Commanded(s, value);
            if WellFormed(value) && value.members["op"] == Text("set")
               && AcceptableChange(ChangeFor(value.members, "c2s")) && AcceptableChange(ChangeFor(value.members, "s2c"))
            then
              && Some(r.faults.c2s) == UpdateFault(s.faults.c2s, ChangeFor(value.members, "c2s"))
              && Some(r.faults.s2c) == UpdateFault(s.faults.s2c, ChangeFor(value.members, "s2c"))
              && r.epoch == s.epoch + 1 && r.pending == [] && r.queuedBytes == 0 && r.epochTotals == ZERO
              && r.lastTransitionDropped == |s.pending| && r.stopReason == s.stopReason
              && r.mappings == s.mappings && r.items == s.items
              && r.history == s.history.(faultsOf := s.history.faultsOf + [r.faults])
            else if WellFormed(value) && value.members["op"] == Text("stop")
                    && "c2s" !in value.members && "s2c" !in value.members
            then r == s.(stopReason := Some("control_stop"))
            else r == s
    ensures Decide(s.faults, value) == Reject
       <==> !(&& WellFormed(value)
              && (|| (&& value.members["op"] == Text("set")
                      && AcceptableChange(ChangeFor(value.members, "c2s"))
                      && AcceptableChange(ChangeFor(value.members, "s2c")))
                  || (&& value.members["op"] in {Text("status"), Text("stop")}
                      && "c2s" !in value.members && "s2c" !in value.members)))
  {
    if value.Object? {
      assert value.members.Keys <= {"id", "op", "c2s", "s2c"}
        <==> forall key :: key in value.members ==> key in {"id", "op", "c2s", "s2c"};
    }
  }

  /** Which values a fault's number may have: a finite number from 0 to its ceiling. */
  lemma NumbersAccepted(v: Json, ceiling: real)
    ensures NumberIn(v, ceiling)
         == if v.Int? && 0.0 <= v.i as real <= ceiling then Some(v.i as real)
            else if v.Float? && 0.0 <= v.r <= ceiling then Some(v.r)
            else None
  {
  }

  // ---- Ticks --------------------------------------------------------------------------------------

  /** A tick closes exactly the mappings not used for the idle time, and a closed mapping's number is out of use. */
  lemma TickCloses(s: State, now: real, failing: set<nat>, client: string)
    requires client in s.mappings && s.mappings[client] in s.items
    ensures var sent := Popped(s.(clock := now), failing);
            var t := Ticked(s, now, failing);
            && sent.mappings == s.mappings && s.mappings[client] in sent.items
            && (client in t.mappings <==> now - sent.items[s.mappings[client]].touched < s.limits.idleSeconds)
            && (client in t.mappings ==> t.mappings[client] == s.mappings[client])
            && (client !in t.mappings ==> s.mappings[client] in t.items && t.items[s.mappings[client]].closed)
  {
    PoppingKeepsMappings(s.(clock := now), failing);
    var sent := Popped(s.(clock := now), failing);
    var gone := set c | c in sent.mappings && Idle(sent, c);
    assert client in gone <==> now - sent.items[s.mappings[client]].touched >= s.limits.idleSeconds;
  }

  lemma {:induction false} PoppingKeepsMappings(s: State, failing: set<nat>)
    ensures var r := Popped(s, failing);
            r.mappings == s.mappings && r.items.Keys == s.items.Keys && r.limits == s.limits && r.clock == s.clock
    decreases |s.pending|
  {
    if HeadDue(s) {
      PoppingKeepsMappings(PopOne(s, failing), failing);
    }
  }

  /** Closing down: nothing is queued, no mapping is left, and each that was is closed. */
  lemma CloseMeans(s: State, client: string)
    ensures var r := ClosedDown(s);
            && r.pending == [] && r.queuedBytes == 0 && r.mappings == map[]
            && r.history.deliveries == s.history.deliveries
            && (client in s.mappings && s.mappings[client] in s.items ==>
                  s.mappings[client] in r.items && r.items[s.mappings[client]].closed)
  {
    assert s.mappings - s.mappings.Keys == map[];
  }

  /** What is discarded is counted as dropped for the one reason, datagram by datagram. */
  lemma {:induction false} DiscardCounts(s: State, q: seq<Entry>, reason: Reason, d: Direction)
    ensures var before, after := s.totals.Of(d), DiscardAll(s, q, reason).totals.Of(d);
            && after.dropped.packets == before.dropped.packets + Sum(q, PacketsOf(d))
            && after.dropped.bytes == before.dropped.bytes + Sum(q, BytesOf(d))
            && Get(after.reasons, reason) == Get(before.reasons, reason) + Sum(q, PacketsOf(d))
            && after.received == before.received && after.forwarded == before.forwarded
    decreases |q|
  {
    if q != [] {
      DiscardCounts(Account(s, q[0].dir, Dropped(reason), q[0].data), q[1..], reason, d);
    }
  }

  // ---- Packet classes ---------------------------------------------------------------------------

  /** The class of a datagram, by its first bytes: the channel, STUN and DTLS ranges do not overlap. */
  lemma ClassIs(data: seq<Byte>)
    ensures ClassOf(data) == TurnChannelData
       <==> |data| >= 4 && data[0] / 64 == 1 && |data| >= 4 + 256 * (data[2] as int) + (data[3] as int)
    ensures ClassOf(data) in {TurnSend, TurnData, Stun}
       <==> && |data| >= 20 && data[0] < 4 && data[4..8] == [33, 18, 164, 66]
            && |data| >= 20 + 256 * (data[2] as int) + (data[3] as int)
    ensures ClassOf(data) == TurnSend ==> data[0] == 0 && data[1] == 22
    ensures ClassOf(data) == TurnData ==> data[0] == 0 && data[1] == 23
    ensures ClassOf(data) == Stun ==> !(data[0] == 0 && data[1] in {22, 23})
    ensures ClassOf(data) == Dtls <==> |data| >= 13 && 20 <= data[0] <= 63 && data[1] == 254
  {
  }
}
