/**
 Values the UDP fault injector works with: packet classes, faults, commands,
 counters, and the delay queue ordered by (deadline, sequence).
 */
module ChaosQueue {
  import opened Base

  datatype Direction = ClientToServer | ServerToClient
  datatype PacketClass = TurnChannelData | TurnSend | TurnData | Stun | Dtls | OtherPacket
  datatype Reason =
    | Reconfigured | MappingLimitOrError | Outage | Loss | QueueLimit | MappingExpired | SocketError | Shutdown

  function BigEndian(high: Byte, low: Byte): (n: nat) { high as nat * 256 + low as nat }

  function ClassOf(data: seq<Byte>): (c: PacketClass) {
    if |data| >= 4 && 0x40 <= data[0] <= 0x7f && |data| >= 4 + BigEndian(data[2], data[3]) then TurnChannelData
    else if |data| >= 20 && data[0] < 4 && data[4..8] == [0x21, 0x12, 0xa4, 0x42]
            && |data| >= 20 + BigEndian(data[2], data[3]) then
      var kind := BigEndian(data[0], data[1]);
      if kind == 0x0016 then TurnSend else if kind == 0x0017 then TurnData else Stun
    else if |data| >= 13 && 20 <= data[0] <= 63 && data[1] == 0xfe then Dtls
    else OtherPacket
  }

  // ---- Faults and commands ----------------------------------------------------

  datatype Fault = Fault(loss: real, delayMs: real, jitterMs: real, outage: bool)
  {
    predicate Valid() {
      0.0 <= loss <= 1.0 && 0.0 <= delayMs <= 30000.0 && 0.0 <= jitterMs <= 30000.0
    }
  }

  const NO_FAULT := Fault(0.0, 0.0, 0.0, false)

  datatype Faults = Faults(c2s: Fault, s2c: Fault)
  {
    function Of(d: Direction): (f: Fault) { if d == ClientToServer then c2s else s2c }
    predicate Valid() { c2s.Valid() && s2c.Valid() }
  }

  /** A decoded control value; NonFinite is a number too large to be finite. */
  datatype Json =
    | Null | Bool(b: bool) | Int(i: int) | Float(r: real) | NonFinite | Text(s: string)
    | List(elems: seq<Json>) | Object(members: map<string, Json>)

  /** A number the fault accepts, if the value is one. */
  function NumberIn(v: Json, ceiling: real): (r: Option<real>) {
    match v
    case Int(i) => if 0.0 <= i as real <= ceiling then Some(i as real) else None
    case Float(x) => if 0.0 <= x <= ceiling then Some(x) else None
    case _ => None
  }

  function FieldOr(members: map<string, Json>, key: string, current: Json): (v: Json) {
    if key in members then members[key] else current
  }

  /** Every field named is a fault field with an acceptable value. */
  predicate AcceptableChange(change: Json) {
    && change.Object?
    && change.members.Keys <= {"loss", "delay_ms", "jitter_ms", "outage"}
    && ("outage" in change.members ==> change.members["outage"].Bool?)
    && ("loss" in change.members ==> NumberIn(change.members["loss"], 1.0).Some?)
    && ("delay_ms" in change.members ==> NumberIn(change.members["delay_ms"], 30000.0).Some?)
    && ("jitter_ms" in change.members ==> NumberIn(change.members["jitter_ms"], 30000.0).Some?)
  }

  /** A named field takes the number given, and one that is not named stays. */
  predicate Takes(members: map<string, Json>, key: string, ceiling: real, was: real, now: real) {
    if key in members then NumberIn(members[key], ceiling) == Some(now) else now == was
  }

  function UpdateFault(f: Fault, change: Json): (r: Option<Fault>)
    requires f.Valid()
    ensures r.Some? <==> AcceptableChange(change)
    ensures r.Some? ==>
              && r.value.Valid()
              && Takes(change.members, "loss", 1.0, f.loss, r.value.loss)
              && Takes(change.members, "delay_ms", 30000.0, f.delayMs, r.value.delayMs)
              && Takes(change.members, "jitter_ms", 30000.0, f.jitterMs, r.value.jitterMs)
              && (if "outage" in change.members then change.members["outage"] == Bool(r.value.outage)
                  else r.value.outage == f.outage)
  {
    if !change.Object? || !(change.members.Keys <= {"loss", "delay_ms", "jitter_ms", "outage"}) then None
    else
      var outage := FieldOr(change.members, "outage", Bool(f.outage));
      var loss := NumberIn(FieldOr(change.members, "loss", Float(f.loss)), 1.0);
      var delay := NumberIn(FieldOr(change.members, "delay_ms", Float(f.delayMs)), 30000.0);
      var jitter := NumberIn(FieldOr(change.members, "jitter_ms", Float(f.jitterMs)), 30000.0);
      if !outage.Bool? || loss.None? || delay.None? || jitter.None? then None
      else Some(Fault(loss.value, delay.value, jitter.value, outage.b))
  }

  datatype Decision = Reject | Set(faults: Faults) | Status | Stop

  function Decide(faults: Faults, value: Json): (d: Decision)
    requires faults.Valid()
    ensures d.Set? ==> d.faults.Valid()
  {
    if !value.Object? || !(value.members.Keys <= {"id", "op", "c2s", "s2c"}) then Reject
    else
      var m := value.members;
      var id := FieldOr(m, "id", Null);
      var op := FieldOr(m, "op", Null);
      if !(id.Null? || id.Text? || id.Int?) then Reject
      else if op == Text("set") then
        var c2s := UpdateFault(faults.c2s, FieldOr(m, "c2s", Object(map[])));
        var s2c := UpdateFault(faults.s2c, FieldOr(m, "s2c", Object(map[])));
        if c2s.None? || s2c.None? then Reject else Set(Faults(c2s.value, s2c.value))
      else if op == Text("status") || op == Text("stop") then
        if "c2s" in m || "s2c" in m then Reject
        else if op == Text("stop") then Stop else Status
      else Reject
  }

  // ---- Counters ------------------------------------------------------------------

  function Get<K>(m: map<K, nat>, k: K): (n: nat) { if k in m then m[k] else 0 }

  datatype Tally = Tally(packets: nat, bytes: nat, classes: map<PacketClass, nat>)
  {
    function Plus(data: seq<Byte>): (t: Tally) {
      Tally(packets + 1, bytes + |data|, classes[ClassOf(data) := Get(classes, ClassOf(data)) + 1])
    }
  }

  const NO_TALLY := Tally(0, 0, map[])

  datatype Side = Side(received: Tally, forwarded: Tally, dropped: Tally, reasons: map<Reason, nat>)
  datatype Counters = Counters(c2s: Side, s2c: Side)
  {
    function Of(d: Direction): (s: Side) { if d == ClientToServer then c2s else s2c }
    function With(d: Direction, s: Side): (c: Counters)
      ensures c.Of(d) == s
      ensures forall e :: e != d ==> c.Of(e) == Of(e)
    {
      if d == ClientToServer then this.(c2s := s) else this.(s2c := s)
    }
  }

  const ZERO_SIDE := Side(NO_TALLY, NO_TALLY, NO_TALLY, map[])
  const ZERO := Counters(ZERO_SIDE, ZERO_SIDE)

  datatype Action = Received | Forwarded | Dropped(reason: Reason)

  function Tick1(s: Side, action: Action, data: seq<Byte>): (r: Side) {
    match action
    case Received => s.(received := s.received.Plus(data))
    case Forwarded => s.(forwarded := s.forwarded.Plus(data))
    case Dropped(reason) =>
      s.(dropped := s.dropped.Plus(data), reasons := s.reasons[reason := Get(s.reasons, reason) + 1])
  }

  function Counted(c: Counters, d: Direction, action: Action, data: seq<Byte>): (r: Counters) {
    c.With(d, Tick1(c.Of(d), action, data))
  }

  function ReasonTotal(m: map<Reason, nat>): (n: nat) {
    Get(m, Reconfigured) + Get(m, MappingLimitOrError) + Get(m, Outage) + Get(m, Loss)
    + Get(m, QueueLimit) + Get(m, MappingExpired) + Get(m, SocketError) + Get(m, Shutdown)
  }

  lemma ReasonPlus(m: map<Reason, nat>, reason: Reason)
    ensures ReasonTotal(m[reason := Get(m, reason) + 1]) == ReasonTotal(m) + 1
  {
    OneMore(m, reason, Reconfigured);
    OneMore(m, reason, MappingLimitOrError);
    OneMore(m, reason, Outage);
    OneMore(m, reason, Loss);
    OneMore(m, reason, QueueLimit);
    OneMore(m, reason, MappingExpired);
    OneMore(m, reason, SocketError);
    OneMore(m, reason, Shutdown);
  }

  lemma OneMore(m: map<Reason, nat>, reason: Reason, r: Reason)
    ensures Get(m[reason := Get(m, reason) + 1], r) == Get(m, r) + if r == reason then 1 else 0
  {
  }

  // ---- The delay queue --------------------------------------------------------------

  /** A delayed datagram; `arrival` says which received datagram it is. */
  datatype Entry = Entry(deadline: real, sequence: nat, item: nat, dir: Direction, data: seq<Byte>, arrival: nat)

  predicate Before(a: Entry, b: Entry) {
    a.deadline < b.deadline || (a.deadline == b.deadline && a.sequence < b.sequence)
  }

  predicate Sorted(q: seq<Entry>) { forall i, j :: 0 <= i < j < |q| ==> Before(q[i], q[j]) }

  /** Where the heap keeps a new entry relative to the others. */
  function Slot(q: seq<Entry>, e: Entry): (i: nat)
    ensures i <= |q|
    ensures forall k :: 0 <= k < i ==> Before(q[k], e)
    ensures i < |q| ==> !Before(q[i], e)
  {
    if q == [] || !Before(q[0], e) then 0 else 1 + Slot(q[1..], e)
  }

  function Push(q: seq<Entry>, e: Entry): (r: seq<Entry>)
    ensures |r| == |q| + 1
  {
    var i := Slot(q, e);
    q[..i] + [e] + q[i..]
  }

  lemma PushMembers(q: seq<Entry>, e: Entry)
    ensures forall x :: x in Push(q, e) <==> x in q || x == e
  {
  }

  lemma PushSorted(q: seq<Entry>, e: Entry)
    requires Sorted(q) && forall k :: 0 <= k < |q| ==> q[k].sequence < e.sequence
    ensures Sorted(Push(q, e))
  {
  }

  // ---- Sums over the queue ---------------------------------------------------------------

  function Sum(q: seq<Entry>, w: Entry -> nat): (n: nat) {
    if q == [] then 0 else w(q[0]) + Sum(q[1..], w)
  }

  function PacketsOf(d: Direction): (w: Entry -> nat) { (e: Entry) => if e.dir == d then 1 else 0 }
  function BytesOf(d: Direction): (w: Entry -> nat) { (e: Entry) => if e.dir == d then |e.data| else 0 }
  function ClassesOf(d: Direction, c: PacketClass): (w: Entry -> nat) {
    (e: Entry) => if e.dir == d && ClassOf(e.data) == c then 1 else 0
  }
  function Size(): (w: Entry -> nat) { (e: Entry) => |e.data| }

  lemma {:induction false} SumConcat(a: seq<Entry>, b: seq<Entry>, w: Entry -> nat)
    ensures Sum(a + b, w) == Sum(a, w) + Sum(b, w)
  {
    if a == [] {
      assert a + b == b;
    } else {
      assert (a + b)[1..] == a[1..] + b;
      SumConcat(a[1..], b, w);
    }
  }

  lemma SumOne(e: Entry, w: Entry -> nat)
    ensures Sum([e], w) == w(e)
  {
  }

  lemma SumPush(q: seq<Entry>, e: Entry, w: Entry -> nat)
    ensures Sum(Push(q, e), w) == w(e) + Sum(q, w)
    ensures Sum([e] + q, w) == w(e) + Sum(q, w)
  {
    var i := Slot(q, e);
    var front, back := q[..i], q[i..];
    assert q == front + back;
    SumOne(e, w);
    SumConcat(front + [e], back, w);
    SumConcat(front, [e], w);
    SumConcat(front, back, w);
    SumConcat([e], q, w);
  }

  // ---- Conservation -----------------------------------------------------------------------

  /** Received is forwarded, dropped or still queued: packets, bytes and each class; and every drop has a reason. */
  ghost predicate SideConserved(s: Side, q: seq<Entry>, d: Direction) {
    && s.received.packets == s.forwarded.packets + s.dropped.packets + Sum(q, PacketsOf(d))
    && s.received.bytes == s.forwarded.bytes + s.dropped.bytes + Sum(q, BytesOf(d))
    && (forall c :: Get(s.received.classes, c)
                 == Get(s.forwarded.classes, c) + Get(s.dropped.classes, c) + Sum(q, ClassesOf(d, c)))
    && ReasonTotal(s.reasons) == s.dropped.packets
  }

  ghost predicate Conserved(c: Counters, q: seq<Entry>) {
    forall d :: SideConserved(c.Of(d), q, d)
  }

  /** How one entry at the head of the queue shows in the sums. */
  lemma HeadSums(q: seq<Entry>, e: Entry, d: Direction)
    ensures Sum([e] + q, PacketsOf(d)) == Sum(q, PacketsOf(d)) + (if e.dir == d then 1 else 0)
    ensures Sum([e] + q, BytesOf(d)) == Sum(q, BytesOf(d)) + (if e.dir == d then |e.data| else 0)
    ensures forall c :: Sum([e] + q, ClassesOf(d, c))
                     == Sum(q, ClassesOf(d, c)) + (if e.dir == d && ClassOf(e.data) == c then 1 else 0)
  {
  }

  lemma CountReceived(c: Counters, q: seq<Entry>, e: Entry)
    requires Conserved(c, q)
    ensures Conserved(Counted(c, e.dir, Received, e.data), [e] + q)
  {
    forall d ensures SideConserved(Counted(c, e.dir, Received, e.data).Of(d), [e] + q, d) {
      SideReceived(c.Of(d), q, e, d);
      assert d != e.dir ==> Counted(c, e.dir, Received, e.data).Of(d) == c.Of(d);
    }
  }

  lemma SideReceived(s: Side, q: seq<Entry>, e: Entry, d: Direction)
    requires SideConserved(s, q, d)
    ensures SideConserved(if d == e.dir then Tick1(s, Received, e.data) else s, [e] + q, d)
  {
  }

  lemma CountForwarded(c: Counters, q: seq<Entry>, e: Entry)
    requires Conserved(c, [e] + q)
    ensures Conserved(Counted(c, e.dir, Forwarded, e.data), q)
  {
    forall d ensures SideConserved(Counted(c, e.dir, Forwarded, e.data).Of(d), q, d) {
      SideForwarded(c.Of(d), q, e, d);
      assert d != e.dir ==> Counted(c, e.dir, Forwarded, e.data).Of(d) == c.Of(d);
    }
  }

  lemma SideForwarded(s: Side, q: seq<Entry>, e: Entry, d: Direction)
    requires SideConserved(s, [e] + q, d)
    ensures SideConserved(if d == e.dir then Tick1(s, Forwarded, e.data) else s, q, d)
  {
  }

  lemma CountDropped(c: Counters, q: seq<Entry>, e: Entry, reason: Reason)
    requires Conserved(c, [e] + q)
    ensures Conserved(Counted(c, e.dir, Dropped(reason), e.data), q)
  {
    forall d ensures SideConserved(Counted(c, e.dir, Dropped(reason), e.data).Of(d), q, d) {
      SideDropped(c.Of(d), q, e, d, reason);
      assert d != e.dir ==> Counted(c, e.dir, Dropped(reason), e.data).Of(d) == c.Of(d);
    }
  }

  lemma SideDropped(s: Side, q: seq<Entry>, e: Entry, d: Direction, reason: Reason)
    requires SideConserved(s, [e] + q, d)
    ensures SideConserved(if d == e.dir then Tick1(s, Dropped(reason), e.data) else s, q, d)
  {
    HeadSums(q, e, d);
    ReasonPlus(s.reasons, reason);
  }

  lemma ConservedPushed(c: Counters, q: seq<Entry>, e: Entry)
    requires Conserved(c, [e] + q)
    ensures Conserved(c, Push(q, e))
  {
    forall d ensures SideConserved(c.Of(d), Push(q, e), d) {
      assert SideConserved(c.Of(d), [e] + q, d);
      SumPush(q, e, PacketsOf(d));
      SumPush(q, e, BytesOf(d));
      forall k ensures Sum([e] + q, ClassesOf(d, k)) == Sum(Push(q, e), ClassesOf(d, k)) {
        SumPush(q, e, ClassesOf(d, k));
      }
    }
  }
}
