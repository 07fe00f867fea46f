/**
 The UDP fault injector: every datagram received is forwarded, dropped or queued;
 none is replayed, sent early, or carried into another epoch; without jitter
 each direction stays in order.
 */
module ChaosProxy {
  import opened Base
  import opened ChaosQueue

  // ---- History --------------------------------------------------------------------

  /** Where a datagram came in: from a client, or from the server on a mapping's socket. */
  datatype Source = FromClient(client: string) | FromServer(item: nat)

  /** A datagram as received; `due` is when it may first be forwarded. */
  datatype Arrival = Arrival(dir: Direction, data: seq<Byte>, at: real, epoch: nat, due: real, source: Source)

  /** A datagram as sent: which arrival, when, what bytes, and on which mapping. */
  datatype Delivery = Delivery(arrival: nat, dir: Direction, epoch: nat, at: real, data: seq<Byte>, item: nat)
  datatype History = History(arrivals: seq<Arrival>, deliveries: seq<Delivery>, faultsOf: seq<Faults>)

  function Max(a: real, b: real): (r: real) { if a < b then b else a }

  /** The delay a fault gives a datagram for one draw of its jitter, in seconds. */
  function DelayFor(f: Fault, draw: real): (r: real)
  {
    Max(0.0, f.delayMs + draw) / 1000.0
  }

  /** The delay lies between the least and the most the fault can give. */
  predicate WithinFault(a: Arrival, f: Fault) {
    DelayFor(f, -f.jitterMs) <= a.due - a.at <= DelayFor(f, f.jitterMs)
  }

  ghost predicate ArrivalsOk(h: History, epoch: nat, clock: real) {
    && |h.faultsOf| == epoch + 1
    && (forall i :: 0 <= i < |h.arrivals| ==>
          h.arrivals[i].epoch <= epoch && h.arrivals[i].at <= clock
          && WithinFault(h.arrivals[i], h.faultsOf[h.arrivals[i].epoch].Of(h.arrivals[i].dir)))
    && (forall i, j :: 0 <= i < j < |h.arrivals| ==> h.arrivals[i].at <= h.arrivals[j].at)
  }

  /** A queued entry is one received datagram of this epoch. */
  ghost predicate EntryOk(h: History, e: Entry, epoch: nat, sequence: nat) {
    && e.arrival < |h.arrivals| && e.sequence <= sequence
    && var a := h.arrivals[e.arrival];
       a.dir == e.dir && a.data == e.data && a.epoch == epoch && a.due == e.deadline
  }

  ghost predicate Numbered(q: seq<Entry>) {
    forall i, j :: 0 <= i < j < |q| ==> Agree(q[i], q[j])
  }

  ghost predicate QueueOk(h: History, q: seq<Entry>, epoch: nat, sequence: nat) {
    (forall i :: 0 <= i < |q| ==> EntryOk(h, q[i], epoch, sequence)) && Numbered(q)
  }

  /** Two entries are numbered in the order they arrived. */
  predicate Agree(a: Entry, b: Entry) {
    || (a.arrival < b.arrival && a.sequence < b.sequence)
    || (b.arrival < a.arrival && b.sequence < a.sequence)
  }

  /** Forwarded at most once, in its own epoch, not before it was due. */
  ghost predicate DeliveriesOk(h: History) {
    && (forall i :: 0 <= i < |h.deliveries| ==>
          h.deliveries[i].arrival < |h.arrivals|
          && var a := h.arrivals[h.deliveries[i].arrival];
             a.dir == h.deliveries[i].dir && a.epoch == h.deliveries[i].epoch && a.due <= h.deliveries[i].at)
    && (forall i, j :: 0 <= i < j < |h.deliveries| ==> h.deliveries[i].arrival != h.deliveries[j].arrival)
  }

  ghost predicate Undelivered(h: History, arrival: nat) {
    forall i :: 0 <= i < |h.deliveries| ==> h.deliveries[i].arrival != arrival
  }

  predicate Jitterless(faultsOf: seq<Faults>, epoch: nat, d: Direction) {
    epoch < |faultsOf| && faultsOf[epoch].Of(d).jitterMs == 0.0
  }

  /** Without jitter, what one direction forwards in an epoch keeps the order of arrival. */
  ghost predicate InOrder(sent: seq<Delivery>, faultsOf: seq<Faults>) {
    forall i, j :: 0 <= i < j < |sent| && sent[i].epoch == sent[j].epoch && sent[i].dir == sent[j].dir
                   && Jitterless(faultsOf, sent[i].epoch, sent[i].dir)
                   ==> sent[i].arrival < sent[j].arrival
  }

  /** What is queued comes after everything its direction has forwarded this epoch. */
  ghost predicate QueueBehind(sent: seq<Delivery>, faultsOf: seq<Faults>, q: seq<Entry>, epoch: nat) {
    forall k :: 0 <= k < |q| && Jitterless(faultsOf, epoch, q[k].dir) ==>
      && faultsOf[epoch].Of(q[k].dir).delayMs > 0.0
      && AllBefore(sent, epoch, q[k].dir, q[k].arrival)
  }

  ghost predicate AllBefore(sent: seq<Delivery>, epoch: nat, d: Direction, arrival: nat) {
    forall i :: 0 <= i < |sent| && sent[i].epoch == epoch && sent[i].dir == d ==> sent[i].arrival < arrival
  }

  ghost predicate Traced(h: History, q: seq<Entry>, epoch: nat, sequence: nat, clock: real) {
    && ArrivalsOk(h, epoch, clock) && QueueOk(h, q, epoch, sequence) && DeliveriesOk(h)
    && (forall k :: 0 <= k < |q| ==> Undelivered(h, q[k].arrival))
    && InOrder(h.deliveries, h.faultsOf) && QueueBehind(h.deliveries, h.faultsOf, q, epoch)
  }

  /** This datagram may be sent now without breaking any of the above. */
  ghost predicate Deliverable(h: History, q: seq<Entry>, epoch: nat, arrival: nat, now: real) {
    && arrival < |h.arrivals| && Undelivered(h, arrival)
    && h.arrivals[arrival].epoch == epoch && h.arrivals[arrival].due <= now
    && (forall k :: 0 <= k < |q| ==> q[k].arrival != arrival)
    && var d := h.arrivals[arrival].dir;
       Jitterless(h.faultsOf, epoch, d) ==>
         && AllBefore(h.deliveries, epoch, d, arrival)
         && (forall k :: 0 <= k < |q| && q[k].dir == d ==> arrival < q[k].arrival)
  }

  lemma TraceDeliver(h: History, q: seq<Entry>, epoch: nat, sequence: nat, clock: real, x: Delivery)
    requires Traced(h, q, epoch, sequence, clock) && Deliverable(h, q, epoch, x.arrival, clock)
    requires x.dir == h.arrivals[x.arrival].dir && x.epoch == epoch && x.at == clock
    ensures Traced(h.(deliveries := h.deliveries + [x]), q, epoch, sequence, clock)
  {
    SendOrder(h.deliveries, h.faultsOf, q, epoch, x);
  }

  lemma SendOrder(sent: seq<Delivery>, faultsOf: seq<Faults>, q: seq<Entry>, epoch: nat, x: Delivery)
    requires InOrder(sent, faultsOf) && QueueBehind(sent, faultsOf, q, epoch) && x.epoch == epoch
    requires Jitterless(faultsOf, epoch, x.dir) ==>
               AllBefore(sent, epoch, x.dir, x.arrival)
               && forall k :: 0 <= k < |q| && q[k].dir == x.dir ==> x.arrival < q[k].arrival
    ensures InOrder(sent + [x], faultsOf) && QueueBehind(sent + [x], faultsOf, q, epoch)
  {
  }

  lemma TraceArrive(h: History, q: seq<Entry>, epoch: nat, sequence: nat, clock: real, a: Arrival)
    requires Traced(h, q, epoch, sequence, clock)
    requires a.at >= clock && a.epoch == epoch && WithinFault(a, h.faultsOf[epoch].Of(a.dir))
    ensures Traced(h.(arrivals := h.arrivals + [a]), q, epoch, sequence, a.at)
    ensures Undelivered(h, |h.arrivals|) && forall k :: 0 <= k < |q| ==> q[k].arrival < |h.arrivals|
  {
  }

  /** A datagram with no delay may go at once. */
  lemma ArrivalDeliverable(h: History, q: seq<Entry>, epoch: nat, sequence: nat, clock: real)
    requires Traced(h, q, epoch, sequence, clock) && h.arrivals != []
    requires var n := |h.arrivals| - 1;
             h.arrivals[n].epoch == epoch && h.arrivals[n].due == h.arrivals[n].at <= clock && Undelivered(h, n)
             && forall k :: 0 <= k < |q| ==> q[k].arrival != n
    ensures Deliverable(h, q, epoch, |h.arrivals| - 1, clock)
  {
  }

  /** A datagram with a delay joins the queue behind its direction. */
  lemma TracePush(h: History, q: seq<Entry>, epoch: nat, sequence: nat, clock: real, e: Entry)
    requires Traced(h, q, epoch, sequence, clock) && Sorted(q) && h.arrivals != []
    requires e.arrival == |h.arrivals| - 1 && e.sequence == sequence + 1
    requires var a := h.arrivals[e.arrival];
             a.dir == e.dir && a.data == e.data && a.epoch == epoch && a.due == e.deadline && a.at < a.due
    requires Undelivered(h, e.arrival) && forall k :: 0 <= k < |q| ==> q[k].arrival < e.arrival
    ensures Sorted(Push(q, e))
    ensures Traced(h, Push(q, e), epoch, sequence + 1, clock)
  {
    PushSorted(q, e);
    PushQueueOk(h, q, epoch, sequence, e);
    PushMembers(q, e);
    var r := Push(q, e);
    assert WithinFault(h.arrivals[e.arrival], h.faultsOf[epoch].Of(e.dir));
    forall k | 0 <= k < |r| && Jitterless(h.faultsOf, epoch, r[k].dir)
      ensures h.faultsOf[epoch].Of(r[k].dir).delayMs > 0.0 && AllBefore(h.deliveries, epoch, r[k].dir, r[k].arrival)
    {
      assert r[k] in q || r[k] == e;
    }
    forall k | 0 <= k < |r| ensures Undelivered(h, r[k].arrival) {
      assert r[k] in q || r[k] == e;
    }
  }

  lemma PushQueueOk(h: History, q: seq<Entry>, epoch: nat, sequence: nat, e: Entry)
    requires QueueOk(h, q, epoch, sequence) && h.arrivals != []
    requires e.arrival == |h.arrivals| - 1 && e.sequence == sequence + 1
    requires var a := h.arrivals[e.arrival];
             a.dir == e.dir && a.data == e.data && a.epoch == epoch && a.due == e.deadline
    requires forall k :: 0 <= k < |q| ==> q[k].arrival < e.arrival
    ensures QueueOk(h, Push(q, e), epoch, sequence + 1)
  {
  }

  /** The head of the queue may go once it is due. */
  lemma HeadDeliverable(h: History, q: seq<Entry>, epoch: nat, sequence: nat, clock: real)
    requires Traced(h, q, epoch, sequence, clock) && Sorted(q) && q != [] && q[0].deadline <= clock
    ensures Traced(h, q[1..], epoch, sequence, clock) && Sorted(q[1..])
    ensures Deliverable(h, q[1..], epoch, q[0].arrival, clock)
  {
  }

  lemma TraceReconfigure(h: History, q: seq<Entry>, epoch: nat, sequence: nat, clock: real, faults: Faults)
    requires Traced(h, q, epoch, sequence, clock)
    ensures Traced(h.(faultsOf := h.faultsOf + [faults]), [], epoch + 1, sequence, clock)
  {
  }

  // ---- State and steps -----------------------------------------------------------------

  /** A client's upstream socket. Queued entries refer to it by number. */
  datatype Item = Item(client: string, touched: real, closed: bool)

  datatype Limits = Limits(clients: nat, datagrams: nat, bytes: nat, idleSeconds: real)

  datatype State = State(
    limits: Limits, faults: Faults, epoch: nat, totals: Counters, epochTotals: Counters,
    mappings: map<string, nat>, items: map<nat, Item>, created: nat,
    pending: seq<Entry>, queuedBytes: int, sequence: nat,
    highWaterMappings: nat, highWaterQueueBytes: int, lastTransitionDropped: nat, socketErrors: nat,
    stopReason: Option<string>, history: History, clock: real)

  function Initial(limits: Limits, now: real): (s: State)
    ensures s.faults.Valid()
  {
    var none := Faults(NO_FAULT, NO_FAULT);
    State(limits, none, 0, ZERO, ZERO, map[], map[], 0, [], 0, 0, 0, 0, 0, 0, None, History([], [], [none]), now)
  }

  /** The random draws and system-call results one receive may use. */
  datatype Draws = Draws(loss: real, jitter: real, connects: bool, sends: bool)

  /** What becomes of a received datagram. */
  datatype Fate = Drop(reason: Reason) | SendNow | Delay(seconds: real)

  function FateOf(f: Fault, mapped: bool, full: bool, draws: Draws): (r: Fate) {
    if !mapped then Drop(MappingLimitOrError)
    else if f.outage then Drop(Outage)
    else if f.loss != 0.0 && draws.loss < f.loss then Drop(Loss)
    else if DelayFor(f, draws.jitter) == 0.0 then SendNow
    else if full then Drop(QueueLimit)
    else Delay(DelayFor(f, draws.jitter))
  }

  function SendAction(closed: bool, sends: bool): (a: Action) {
    if closed then Dropped(MappingExpired) else if !sends then Dropped(SocketError) else Forwarded
  }

  function Account(s: State, d: Direction, action: Action, data: seq<Byte>): (r: State)
    ensures r.faults == s.faults && r.limits == s.limits
  {
    s.(totals := Counted(s.totals, d, action, data), epochTotals := Counted(s.epochTotals, d, action, data))
  }

  function Touch(s: State, item: nat): (r: State)
    ensures r.faults == s.faults && r.limits == s.limits
  {
    if item in s.items then s.(items := s.items[item := s.items[item].(touched := s.clock)]) else s
  }

  /** Forwarding one datagram, or dropping it. */
  function Sent(s: State, e: Entry, sends: bool): (r: State)
    ensures r == s.(totals := r.totals, epochTotals := r.epochTotals, items := r.items,
                    socketErrors := r.socketErrors, history := r.history)
  {
    var action := SendAction(e.item !in s.items || s.items[e.item].closed, sends);
    var t := Account(s, e.dir, action, e.data);
    if action == Forwarded then
      Touch(t, e.item).(history := t.history.(deliveries :=
                          t.history.deliveries + [Delivery(e.arrival, e.dir, t.epoch, t.clock, e.data, e.item)]))
    else if action == Dropped(SocketError) then t.(socketErrors := t.socketErrors + 1)
    else t
  }

  function DiscardAll(s: State, q: seq<Entry>, reason: Reason): (r: State)
    ensures r == s.(totals := r.totals, epochTotals := r.epochTotals)
    decreases |q|
  {
    if q == [] then s else DiscardAll(Account(s, q[0].dir, Dropped(reason), q[0].data), q[1..], reason)
  }

  function Discarded(s: State, reason: Reason): (r: State)
    ensures r.faults == s.faults && r.limits == s.limits
  {
    DiscardAll(s, s.pending, reason).(pending := [], queuedBytes := 0)
  }

  function NextEpoch(s: State, next: Faults): (r: State)
    ensures r.faults == next && r.limits == s.limits
  {
    Discarded(s, Reconfigured).(
      lastTransitionDropped := |s.pending|, faults := next, epoch := s.epoch + 1, epochTotals := ZERO,
      history := s.history.(faultsOf := s.history.faultsOf + [next]))
  }

  function Commanded(s: State, value: Json): (r: State)
    requires s.faults.Valid()
    ensures r.faults.Valid() && r.limits == s.limits
  {
    match Decide(s.faults, value)
    case Reject => s
    case Status => s
    case Stop => s.(stopReason := Some("control_stop"))
    case Set(next) => NextEpoch(s, next)
  }

  function Mapped(s: State, client: string, connects: bool): (r: (State, Option<nat>))
    ensures r.0.faults == s.faults && r.0.limits == s.limits
  {
    if client in s.mappings then (s, Some(s.mappings[client]))
    else if |s.mappings| >= s.limits.clients then (s, None)
    else if !connects then (s.(socketErrors := s.socketErrors + 1), None)
    else
      var mappings := s.mappings[client := s.created];
      (s.(mappings := mappings, items := s.items[s.created := Item(client, s.clock, false)], created := s.created + 1,
          highWaterMappings := if s.highWaterMappings < |mappings| then |mappings| else s.highWaterMappings),
       Some(s.created))
  }

  predicate Full(s: State, data: seq<Byte>) {
    |s.pending| >= s.limits.datagrams || s.queuedBytes + |data| > s.limits.bytes
  }

  /** Counting a datagram in and writing it down. */
  function Arrived(s: State, source: Source, data: seq<Byte>, now: real, delay: real): (r: State)
    ensures r.faults == s.faults && r.limits == s.limits
  {
    var d := DirectionOf(source);
    Account(s, d, Received, data).(
      clock := now,
      history := s.history.(arrivals := s.history.arrivals + [Arrival(d, data, now, s.epoch, now + delay, source)]))
  }

  function Enqueued(s: State, item: nat, d: Direction, data: seq<Byte>, delay: real, arrival: nat): (r: State)
    ensures r.faults == s.faults && r.limits == s.limits
  {
    var bytes := s.queuedBytes + |data|;
    s.(sequence := s.sequence + 1,
       pending := Push(s.pending, Entry(s.clock + delay, s.sequence + 1, item, d, data, arrival)),
       queuedBytes := bytes,
       highWaterQueueBytes := if s.highWaterQueueBytes < bytes then bytes else s.highWaterQueueBytes)
  }

  /** The tail of `receive`, once the datagram is counted and its mapping looked up. */
  function Routed(s: State, item: Option<nat>, d: Direction, data: seq<Byte>, draws: Draws, arrival: nat): (r: State)
    ensures r.faults == s.faults && r.limits == s.limits
  {
    match FateOf(s.faults.Of(d), item.Some?, Full(s, data), draws)
    case Drop(reason) =>
      Account(if item.Some? then Touch(s, item.value) else s, d, Dropped(reason), data)
    case SendNow =>
      if item.None? then s
      else Sent(Touch(s, item.value), Entry(s.clock, 0, item.value, d, data, arrival), draws.sends)
    case Delay(delay) =>
      if item.None? then s else Enqueued(Touch(s, item.value), item.value, d, data, delay, arrival)
  }

  function DirectionOf(source: Source): (d: Direction) {
    if source.FromServer? then ServerToClient else ClientToServer
  }

  function ReceivedFrom(s: State, source: Source, data: seq<Byte>, now: real, draws: Draws): (r: State)
    ensures r.faults == s.faults && r.limits == s.limits
  {
    var d := DirectionOf(source);
    var counted := Arrived(s, source, data, now, DelayFor(s.faults.Of(d), draws.jitter));
    var mapped := if source.FromClient? then Mapped(counted, source.client, draws.connects)
                  else (counted, Some(source.item));
    Routed(mapped.0, mapped.1, d, data, draws, |s.history.arrivals|)
  }

  predicate HeadDue(s: State) { s.pending != [] && s.pending[0].deadline <= s.clock }

  /** The head of the queue is taken off and sent, unless its send fails. */
  function PopOne(s: State, failing: set<nat>): (r: State)
    requires s.pending != []
    ensures r.pending == s.pending[1..] && r.faults == s.faults && r.clock == s.clock && r.limits == s.limits
  {
    var e := s.pending[0];
    Sent(s.(pending := s.pending[1..], queuedBytes := s.queuedBytes - |e.data|), e, e.sequence !in failing)
  }

  /** Everything due is sent; `failing` names the sends that fail. */
  function Popped(s: State, failing: set<nat>): (r: State)
    ensures r.faults == s.faults && r.clock == s.clock && r.limits == s.limits
    decreases |s.pending|
  {
    if HeadDue(s) then Popped(PopOne(s, failing), failing) else s
  }

  predicate Idle(s: State, client: string) {
    client in s.mappings && s.mappings[client] in s.items
    && s.clock - s.items[s.mappings[client]].touched >= s.limits.idleSeconds
  }

  function CloseItems(items: map<nat, Item>, dead: set<nat>): (r: map<nat, Item>) {
    map i | i in items :: if i in dead then items[i].(closed := true) else items[i]
  }

  function CloseMappings(s: State, clients: set<string>): (r: State)
    ensures r.faults == s.faults && r.limits == s.limits
  {
    s.(mappings := s.mappings - clients,
       items := CloseItems(s.items, set c | c in clients && c in s.mappings :: s.mappings[c]))
  }

  function Ticked(s: State, now: real, failing: set<nat>): (r: State)
    ensures r.faults == s.faults && r.limits == s.limits
  {
    var sent := Popped(s.(clock := now), failing);
    CloseMappings(sent, set c | c in sent.mappings && Idle(sent, c))
  }

  function ClosedDown(s: State): (r: State)
    ensures r.faults == s.faults && r.limits == s.limits
  {
    CloseMappings(Discarded(s, Shutdown), s.mappings.Keys)
  }

  // ---- Runs --------------------------------------------------------------------------------

  datatype Event =
    | Receive(source: Source, data: seq<Byte>, now: real, draws: Draws)
    | Tick(now: real, failing: set<nat>)
    | Control(value: Json)
    | Close

  function After(s: State, e: Event): (r: State)
    requires s.faults.Valid()
    ensures r.faults.Valid() && r.limits == s.limits
  {
    match e
    case Receive(source, data, now, draws) => ReceivedFrom(s, source, data, now, draws)
    case Tick(now, failing) => Ticked(s, now, failing)
    case Control(value) => Commanded(s, value)
    case Close => ClosedDown(s)
  }

  /** The clock does not run backwards and jitter is drawn within the fault's range. */
  predicate Possible(s: State, e: Event) {
    match e
    case Receive(source, _, now, draws) =>
      var f := s.faults.Of(DirectionOf(source));
      now >= s.clock && -f.jitterMs <= draws.jitter <= f.jitterMs
    case Tick(now, _) => now >= s.clock
    case _ => true
  }

  ghost predicate Balanced(s: State) {
    Conserved(s.totals, s.pending) && Conserved(s.epochTotals, s.pending)
  }

  ghost predicate Bounded(s: State) {
    && s.queuedBytes == Sum(s.pending, Size()) && s.queuedBytes <= s.limits.bytes
    && |s.pending| <= s.limits.datagrams && s.queuedBytes <= s.highWaterQueueBytes
    && |s.mappings| <= s.limits.clients && |s.mappings| <= s.highWaterMappings
  }

  ghost predicate Recorded(s: State) {
    && Sorted(s.pending) && Traced(s.history, s.pending, s.epoch, s.sequence, s.clock)
    && s.history.faultsOf[s.epoch] == s.faults && s.faults.Valid()
  }

  // ---- Conservation over runs ------------------------------------------------------------------

  lemma SentBalanced(s: State, e: Entry, sends: bool)
    requires Conserved(s.totals, [e] + s.pending) && Conserved(s.epochTotals, [e] + s.pending)
    ensures Balanced(Sent(s, e, sends))
  {
    var action := SendAction(e.item !in s.items || s.items[e.item].closed, sends);
    if action == Forwarded {
      CountForwarded(s.totals, s.pending, e);
      CountForwarded(s.epochTotals, s.pending, e);
    } else {
      CountDropped(s.totals, s.pending, e, action.reason);
      CountDropped(s.epochTotals, s.pending, e, action.reason);
    }
  }

  lemma {:induction false} DiscardBalanced(s: State, q: seq<Entry>, reason: Reason)
    requires Conserved(s.totals, q) && Conserved(s.epochTotals, q)
    ensures Conserved(DiscardAll(s, q, reason).totals, []) && Conserved(DiscardAll(s, q, reason).epochTotals, [])
    decreases |q|
  {
    if q != [] {
      assert q == [q[0]] + q[1..];
      CountDropped(s.totals, q[1..], q[0], reason);
      CountDropped(s.epochTotals, q[1..], q[0], reason);
      DiscardBalanced(Account(s, q[0].dir, Dropped(reason), q[0].data), q[1..], reason);
    }
  }

  lemma ZeroBalanced()
    ensures Conserved(ZERO, [])
  {
  }

  /** Only its direction and its bytes matter while a datagram is in flight. */
  lemma InFlight(c: Counters, q: seq<Entry>, e: Entry, f: Entry)
    requires Conserved(c, [e] + q) && e.dir == f.dir && e.data == f.data
    ensures Conserved(c, [f] + q)
  {
  }

  lemma DropBalanced(s: State, e: Entry, reason: Reason)
    requires Conserved(s.totals, [e] + s.pending) && Conserved(s.epochTotals, [e] + s.pending)
    ensures Balanced(Account(s, e.dir, Dropped(reason), e.data))
  {
    CountDropped(s.totals, s.pending, e, reason);
    CountDropped(s.epochTotals, s.pending, e, reason);
  }

  lemma DelayBalanced(s: State, e: Entry, item: nat, delay: real, arrival: nat)
    requires Conserved(s.totals, [e] + s.pending) && Conserved(s.epochTotals, [e] + s.pending)
    ensures Balanced(Enqueued(s, item, e.dir, e.data, delay, arrival))
  {
    var f := Entry(s.clock + delay, s.sequence + 1, item, e.dir, e.data, arrival);
    FlightQueued(s.totals, s.pending, e, f);
    FlightQueued(s.epochTotals, s.pending, e, f);
  }

  /** A datagram in flight may be queued under any deadline. */
  lemma FlightQueued(c: Counters, q: seq<Entry>, e: Entry, f: Entry)
    requires Conserved(c, [e] + q) && e.dir == f.dir && e.data == f.data
    ensures Conserved(c, Push(q, f))
  {
    InFlight(c, q, e, f);
    ConservedPushed(c, q, f);
  }

  lemma SendNowBalanced(s: State, e: Entry, item: nat, sends: bool, arrival: nat)
    requires Conserved(s.totals, [e] + s.pending) && Conserved(s.epochTotals, [e] + s.pending)
    ensures Balanced(Sent(Touch(s, item), Entry(s.clock, 0, item, e.dir, e.data, arrival), sends))
  {
    var f := Entry(s.clock, 0, item, e.dir, e.data, arrival);
    InFlight(s.totals, s.pending, e, f);
    InFlight(s.epochTotals, s.pending, e, f);
    SentBalanced(Touch(s, item), f, sends);
  }

  lemma RoutedBalanced(s: State, item: Option<nat>, e: Entry, draws: Draws, arrival: nat)
    requires Conserved(s.totals, [e] + s.pending) && Conserved(s.epochTotals, [e] + s.pending)
    ensures Balanced(Routed(s, item, e.dir, e.data, draws, arrival))
  {
    var fate := FateOf(s.faults.Of(e.dir), item.Some?, Full(s, e.data), draws);
    if fate.Drop? {
      DropBalanced(if item.Some? then Touch(s, item.value) else s, e, fate.reason);
    } else if fate.SendNow? {
      SendNowBalanced(s, e, item.value, draws.sends, arrival);
    } else {
      DelayBalanced(Touch(s, item.value), e, item.value, fate.seconds, arrival);
    }
  }

  lemma ReceiveBalanced(s: State, source: Source, data: seq<Byte>, now: real, draws: Draws)
    requires Balanced(s)
    ensures Balanced(ReceivedFrom(s, source, data, now, draws))
  {
    var d := DirectionOf(source);
    var counted := Arrived(s, source, data, now, DelayFor(s.faults.Of(d), draws.jitter));
    var mapped := if source.FromClient? then Mapped(counted, source.client, draws.connects)
                  else (counted, Some(source.item));
    var e := Entry(now, 0, 0, d, data, 0);
    CountReceived(s.totals, s.pending, e);
    CountReceived(s.epochTotals, s.pending, e);
    RoutedBalanced(mapped.0, mapped.1, e, draws, |s.history.arrivals|);
  }

  lemma {:induction false} PopBalanced(s: State, failing: set<nat>)
    requires Balanced(s)
    ensures Balanced(Popped(s, failing))
    decreases |s.pending|
  {
    if HeadDue(s) {
      PopOneBalanced(s, failing);
      PopBalanced(PopOne(s, failing), failing);
    }
  }

  lemma PopOneBalanced(s: State, failing: set<nat>)
    requires Balanced(s) && s.pending != []
    ensures Balanced(PopOne(s, failing))
  {
    var e := s.pending[0];
    assert s.pending == [e] + s.pending[1..];
    SentBalanced(s.(pending := s.pending[1..], queuedBytes := s.queuedBytes - |e.data|), e, e.sequence !in failing);
  }

  /** Every step keeps both sets of counters balanced against the queue. */
  lemma StepBalanced(s: State, e: Event)
    requires Balanced(s) && s.faults.Valid()
    ensures Balanced(After(s, e))
  {
    match e {
      case Receive(source, data, now, draws) =>
        ReceiveBalanced(s, source, data, now, draws);
      case Tick(now, failing) =>
        PopBalanced(s.(clock := now), failing);
      case Control(value) =>
        if Decide(s.faults, value).Set? {
          DiscardBalanced(s, s.pending, Reconfigured);
          ZeroBalanced();
        }
      case Close =>
        DiscardBalanced(s, s.pending, Shutdown);
    }
  }
}
