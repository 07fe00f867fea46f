/**
 Changing the pin list in place (daemon/src/creds.rs): one approved pin, the server's live set,
 and the batch of proposals that a pinned browser may have endorsed.
 */
module Adoption {
  import opened Base
  import opened Pins
  import Endorsement

  // ---- Retaining the live pins ------------------------------------------------------

  function Retained(pins: seq<Pin>, live: set<string>): (r: seq<Pin>)
    ensures |r| <= |pins|
  {
    if pins == [] then []
    else
      var n := |pins| - 1;
      Retained(pins[..n], live) + (if pins[n].device in live then [pins[n]] else [])
  }

  /** Exactly the live pins stay, each as it was, and none is added. */
  lemma {:induction false} RetainedMembers(pins: seq<Pin>, live: set<string>)
    ensures forall p :: p in Retained(pins, live) <==> p in pins && p.device in live
    ensures |Retained(pins, live)| == |pins| <==> Retained(pins, live) == pins
  {
    if pins != [] {
      var n := |pins| - 1;
      RetainedMembers(pins[..n], live);
      assert pins == pins[..n] + [pins[n]];
    }
  }

  lemma {:induction false} RetainedSorted(pins: seq<Pin>, live: set<string>)
    requires Sorted(pins) && OneDevicePerKey(pins)
    ensures Sorted(Retained(pins, live)) && OneDevicePerKey(Retained(pins, live))
  {
    if pins != [] {
      var n := |pins| - 1;
      RetainedSorted(pins[..n], live);
      RetainedMembers(pins[..n], live);
      var r := Retained(pins[..n], live);
      forall i | 0 <= i < |r| ensures Before(r[i].device, pins[n].device) && r[i].key != pins[n].key {
        assert r[i] in pins[..n];
      }
    }
  }

  lemma RetainedCanonical(lib: Library, pins: seq<Pin>, live: set<string>)
    requires Canonical(lib, pins)
    ensures Canonical(lib, Retained(pins, live))
  {
    RetainedMembers(pins, live);
    RetainedSorted(pins, live);
  }

  // ---- Endorsed proposals ----------------------------------------------------------------

  datatype Proposal = Proposal(device: string, algorithm: string, key: string, fingerprint: string,
                               endorser: Option<string>, signature: Option<string>)

  datatype Reason = InvalidChain | PinLimit | Other

  datatype Outcome = Outcome(device: string, newlyAdopted: bool, reason: Option<Reason>)

  /** The keys of the pins held when a pass begins. */
  function Trusted(lib: Library, pins: seq<Pin>): (r: seq<PublicKey>)
    ensures forall k :: k in r <==> exists p :: p in pins && KeyFromWire(lib, p.key) == Some(k)
  {
    if pins == [] then []
    else
      var n := |pins| - 1;
      assert pins == pins[..n] + [pins[n]];
      Trusted(lib, pins[..n]) + (match KeyFromWire(lib, pins[n].key) case Some(k) => [k] case None => [])
  }

  /** The transcript a proposal claims to be endorsed by, bound to this account and host. */
  function Transcript(lib: Library, account: string, host: PublicKey, c: Proposal)
    : (r: Option<Endorsement.BrowserTranscript>)
    ensures r.Some? ==>
      && r.value.hostKey == host
      && KeyFromWire(lib, c.key) == Some(r.value.endorsedKey)
      && UuidFromText(lib, c.device) == Some(r.value.deviceId)
      && UuidFromText(lib, account) == Some(r.value.userId)
      && c.endorser.Some? && KeyFromWire(lib, c.endorser.value) == Some(r.value.endorserKey)
      && r.value.endorserKey != r.value.endorsedKey
  {
    if c.endorser.None? then None
    else
      match (UuidFromText(lib, account), UuidFromText(lib, c.device),
             KeyFromWire(lib, c.endorser.value), KeyFromWire(lib, c.key))
      case (Some(user), Some(device), Some(endorser), Some(endorsed)) =>
        (match Endorsement.BuildBrowser(user, host, endorser, endorsed, device)
         case Ok(t) => Some(t)
         case Err(_) => None)
      case _ => None
  }

  predicate Endorsed(lib: Library, account: string, host: PublicKey, trusted: seq<PublicKey>, c: Proposal) {
    && c.signature.Some?
    && Transcript(lib, account, host, c).Some?
    && Endorsement.SignatureFromWire(c.signature.value).Some?
    && Endorsement.VerifyBrowser(Transcript(lib, account, host, c).value,
                                 Endorsement.SignatureFromWire(c.signature.value).value, host, trusted, lib.verify).Ok?
  }

  function PinOf(lib: Library, c: Proposal): (r: Option<Pin>)
    ensures r.Some? ==> r.value.device == c.device && r.value.key == c.key && r.value.proof.None?
    ensures r.Some? ==> ValidPin(lib, r.value)
  {
    PinFromApproval(lib, c.device, c.algorithm, c.key, c.fingerprint)
  }

  predicate DevicePinned(pins: seq<Pin>, device: string) {
    exists p :: p in pins && p.device == device
  }

  function AdoptOne(lib: Library, account: string, host: PublicKey, trusted: seq<PublicKey>,
                    pins: seq<Pin>, c: Proposal): (r: (Outcome, seq<Pin>))
  {
    if DevicePinned(pins, c.device) then (Outcome(c.device, false, None), pins)
    else if !Endorsed(lib, account, host, trusted, c) then (Outcome(c.device, false, Some(InvalidChain)), pins)
    else if PinOf(lib, c).None? then (Outcome(c.device, false, Some(InvalidChain)), pins)
    else if |pins| >= MAX_BROWSER_PINS then (Outcome(c.device, false, Some(PinLimit)), pins)
    else
      match Merge(lib, pins, PinOf(lib, c).value)
      case Err(_) => (Outcome(c.device, false, Some(Other)), pins)
      case Ok((_, r)) => (Outcome(c.device, true, None), r)
  }

  function AdoptAll(lib: Library, account: string, host: PublicKey, trusted: seq<PublicKey>,
                    pins: seq<Pin>, batch: seq<Proposal>): (r: (seq<Outcome>, seq<Pin>))
    ensures |r.0| == |batch|
  {
    if batch == [] then ([], pins)
    else
      var n := |batch| - 1;
      var (outcomes, held) := AdoptAll(lib, account, host, trusted, pins, batch[..n]);
      var (outcome, next) := AdoptOne(lib, account, host, trusted, held, batch[n]);
      (outcomes + [outcome], next)
  }

  /** A proposal that stands on its own: endorsed, well formed and with a device and key not in the list. */
  predicate Welcome(lib: Library, account: string, host: PublicKey, trusted: seq<PublicKey>,
                    pins: seq<Pin>, c: Proposal)
  {
    && Endorsed(lib, account, host, trusted, c)
    && PinOf(lib, c).Some? && Free(pins, PinOf(lib, c).value)
  }

  /**
   What an endorsement is: over this account, this host, the proposed key and device, signed by a key among the
   trusted ones that is not the proposed one.
   */
  lemma EndorsedIff(lib: Library, account: string, host: PublicKey, trusted: seq<PublicKey>, c: Proposal)
    ensures Endorsed(lib, account, host, trusted, c)
       <==> && c.endorser.Some? && c.signature.Some?
            && UuidFromText(lib, account).Some? && UuidFromText(lib, c.device).Some?
            && KeyFromWire(lib, c.endorser.value).Some? && KeyFromWire(lib, c.key).Some?
            && KeyFromWire(lib, c.endorser.value) != KeyFromWire(lib, c.key)
            && KeyFromWire(lib, c.endorser.value).value in trusted
            && Endorsement.SignatureFromWire(c.signature.value).Some?
            && lib.verify(KeyFromWire(lib, c.endorser.value).value,
                          Endorsement.BROWSER_MAGIC + [1] + UuidFromText(lib, account).value + host
                          + KeyFromWire(lib, c.endorser.value).value + KeyFromWire(lib, c.key).value
                          + UuidFromText(lib, c.device).value,
                          Endorsement.SignatureFromWire(c.signature.value).value)
  {
  }

  /** What is answered for one proposal. */
  lemma AdoptOneAnswer(lib: Library, account: string, host: PublicKey, trusted: seq<PublicKey>,
                       pins: seq<Pin>, c: Proposal)
    requires Canonical(lib, pins)
    ensures var o := AdoptOne(lib, account, host, trusted, pins, c).0;
            && o.device == c.device
            && o.reason == if exists p :: p in pins && p.device == c.device then None
                           else if !Endorsed(lib, account, host, trusted, c) || PinOf(lib, c).None?
                           then Some(InvalidChain)
                           else if |pins| >= 32 then Some(PinLimit)
                           else if exists p :: p in pins && p.key == c.key then Some(Other)
                           else None
  {
    if Endorsed(lib, account, host, trusted, c) && PinOf(lib, c).Some? {
      MergeSucceedsIff(lib, pins, PinOf(lib, c).value);
    }
  }

  /** One proposal: adopted exactly when it is welcome and there is room; otherwise nothing changes. */
  lemma AdoptOneEffect(lib: Library, account: string, host: PublicKey, trusted: seq<PublicKey>,
                       pins: seq<Pin>, c: Proposal)
    requires Canonical(lib, pins)
    ensures var (o, r) := AdoptOne(lib, account, host, trusted, pins, c);
            && Canonical(lib, r)
            && (o.newlyAdopted <==> Welcome(lib, account, host, trusted, pins, c) && |pins| < MAX_BROWSER_PINS)
            && (o.newlyAdopted ==> |r| == |pins| + 1 && forall p :: p in r <==> p in pins || p == PinOf(lib, c).value)
            && (!o.newlyAdopted ==> r == pins)
  {
    if Endorsed(lib, account, host, trusted, c) && PinOf(lib, c).Some? {
      var pin := PinOf(lib, c).value;
      MergeSucceedsIff(lib, pins, pin);
      assert Free(pins, pin) ==> !DevicePinned(pins, c.device);
      assert Pinned(pins, pin.device, pin.key) ==> DevicePinned(pins, c.device);
      if Merge(lib, pins, pin).Ok? {
        MergeCanonical(lib, pins, pin);
        MergeHolds(lib, pins, pin);
      }
    }
  }

  function NewlyAdopted(outcomes: seq<Outcome>): (n: nat) {
    if outcomes == [] then 0
    else NewlyAdopted(outcomes[..|outcomes| - 1]) + if outcomes[|outcomes| - 1].newlyAdopted then 1 else 0
  }

  /** Some proposal of the batch, endorsed by a key trusted beforehand, brought this pin. */
  ghost predicate Vouched(lib: Library, account: string, host: PublicKey, trusted: seq<PublicKey>,
                          batch: seq<Proposal>, p: Pin)
  {
    exists c :: c in batch && Endorsed(lib, account, host, trusted, c) && PinOf(lib, c) == Some(p)
  }

  /**
   A pass keeps the list canonical and every pin in it, reports exactly its growth, and brings only
   pins vouched for by a key trusted before the pass began.
   */
  lemma {:induction false} AdoptAllSound(lib: Library, account: string, host: PublicKey, trusted: seq<PublicKey>,
                                         pins: seq<Pin>, batch: seq<Proposal>)
    requires Canonical(lib, pins)
    ensures var (outcomes, r) := AdoptAll(lib, account, host, trusted, pins, batch);
            && Canonical(lib, r)
            && NewlyAdopted(outcomes) == |r| - |pins|
            && (forall p :: p in pins ==> p in r)
            && (forall p :: p in r && p !in pins ==> Vouched(lib, account, host, trusted, batch, p))
            && (NewlyAdopted(outcomes) == 0 ==> r == pins)
  {
    if batch != [] {
      var n := |batch| - 1;
      var (outcomes, held) := AdoptAll(lib, account, host, trusted, pins, batch[..n]);
      var (outcome, r) := AdoptOne(lib, account, host, trusted, held, batch[n]);
      AdoptAllSound(lib, account, host, trusted, pins, batch[..n]);
      AdoptOneEffect(lib, account, host, trusted, held, batch[n]);
      assert (outcomes + [outcome])[..n] == outcomes;
      assert batch[n] in batch;
      forall p | p in r && p !in pins ensures Vouched(lib, account, host, trusted, batch, p) {
        if p in held {
          assert Vouched(lib, account, host, trusted, batch[..n], p);
        }
      }
    }
  }

  // ---- The order of a batch -----------------------------------------------------------------

  predicate Distinct(batch: seq<Proposal>) {
    forall i, j :: 0 <= i < j < |batch| ==> batch[i].device != batch[j].device && batch[i].key != batch[j].key
  }

  /** A welcome proposal of the batch brought this pin. */
  ghost predicate Brought(lib: Library, account: string, host: PublicKey, trusted: seq<PublicKey>,
                          pins: seq<Pin>, batch: seq<Proposal>, p: Pin)
  {
    exists c :: c in batch && Welcome(lib, account, host, trusted, pins, c) && PinOf(lib, c) == Some(p)
  }

  /** With distinct proposals and room for all, each is judged against the list the pass began with. */
  lemma {:induction false} AdoptedMembers(lib: Library, account: string, host: PublicKey, trusted: seq<PublicKey>,
                                          pins: seq<Pin>, batch: seq<Proposal>)
    requires Canonical(lib, pins) && Distinct(batch) && |pins| + |batch| <= MAX_BROWSER_PINS
    ensures var r := AdoptAll(lib, account, host, trusted, pins, batch).1;
            && Canonical(lib, r) && |r| <= |pins| + |batch|
            && forall p :: p in r <==> p in pins || Brought(lib, account, host, trusted, pins, batch, p)
  {
    if batch != [] {
      var n := |batch| - 1;
      var c := batch[n];
      var held := AdoptAll(lib, account, host, trusted, pins, batch[..n]).1;
      var r := AdoptOne(lib, account, host, trusted, held, c).1;
      AdoptedMembers(lib, account, host, trusted, pins, batch[..n]);
      AdoptOneEffect(lib, account, host, trusted, held, c);
      if Endorsed(lib, account, host, trusted, c) && PinOf(lib, c).Some? {
        EarlierDoNotClash(lib, account, host, trusted, pins, batch, held);
      }
      BroughtByLast(lib, account, host, trusted, pins, batch);
    }
  }

  lemma BroughtByLast(lib: Library, account: string, host: PublicKey, trusted: seq<PublicKey>,
                      pins: seq<Pin>, batch: seq<Proposal>)
    requires batch != []
    ensures forall p :: Brought(lib, account, host, trusted, pins, batch, p)
                   <==> || Brought(lib, account, host, trusted, pins, batch[..|batch| - 1], p)
                        || (Welcome(lib, account, host, trusted, pins, batch[|batch| - 1])
                            && PinOf(lib, batch[|batch| - 1]) == Some(p))
  {
  }

  lemma EarlierDoNotClash(lib: Library, account: string, host: PublicKey, trusted: seq<PublicKey>,
                          pins: seq<Pin>, batch: seq<Proposal>, held: seq<Pin>)
    requires batch != [] && Distinct(batch) && PinOf(lib, batch[|batch| - 1]).Some?
    requires forall p :: p in held <==> p in pins || Brought(lib, account, host, trusted, pins, batch[..|batch| - 1], p)
    ensures Free(held, PinOf(lib, batch[|batch| - 1]).value) <==> Free(pins, PinOf(lib, batch[|batch| - 1]).value)
  {
  }

  /** A batch of distinct proposals with room for all gives the same list in every order. */
  lemma OrderIsIrrelevant(lib: Library, account: string, host: PublicKey, trusted: seq<PublicKey>,
                          pins: seq<Pin>, batch: seq<Proposal>, other: seq<Proposal>)
    requires Canonical(lib, pins) && Distinct(batch) && |pins| + |batch| <= MAX_BROWSER_PINS
    requires multiset(batch) == multiset(other)
    ensures AdoptAll(lib, account, host, trusted, pins, batch).1 == AdoptAll(lib, account, host, trusted, pins, other).1
  {
    SameLengthAndDistinct(batch, other);
    AdoptedMembers(lib, account, host, trusted, pins, batch);
    AdoptedMembers(lib, account, host, trusted, pins, other);
    forall c ensures c in batch <==> c in other {
      assert c in multiset(batch) <==> c in multiset(other);
    }
    SortedDetermined(AdoptAll(lib, account, host, trusted, pins, batch).1,
                     AdoptAll(lib, account, host, trusted, pins, other).1);
  }

  lemma SameLengthAndDistinct(batch: seq<Proposal>, other: seq<Proposal>)
    requires multiset(batch) == multiset(other) && Distinct(batch)
    ensures |batch| == |other| && Distinct(other)
  {
    assert |multiset(batch)| == |batch| && |multiset(other)| == |other|;
    forall i, j | 0 <= i < j < |other| ensures other[i].device != other[j].device && other[i].key != other[j].key {
      RepeatedTwice(other, i, j);
      DistinctOnce(batch, other[i]);
      assert other[i] in multiset(other) && other[j] in multiset(other);
      var k: nat :| k < |batch| && batch[k] == other[i];
      var m: nat :| m < |batch| && batch[m] == other[j];
    }
  }

  lemma RepeatedTwice(batch: seq<Proposal>, i: nat, j: nat)
    requires i < j < |batch|
    ensures batch[i] == batch[j] ==> multiset(batch)[batch[i]] >= 2
  {
    assert batch == batch[..j] + batch[j..];
    assert batch[..j][i] in multiset(batch[..j]) && batch[j..][0] in multiset(batch[j..]);
  }

  lemma {:induction false} DistinctOnce(batch: seq<Proposal>, c: Proposal)
    requires Distinct(batch)
    ensures multiset(batch)[c] <= 1
  {
    if batch != [] {
      var n := |batch| - 1;
      assert batch == batch[..n] + [batch[n]];
      DistinctOnce(batch[..n], c);
      assert batch[n] !in batch[..n];
    }
  }

  // ---- The list updated in place ------------------------------------------------------------

  class PinList {
    var pins: seq<Pin>

    constructor (initial: seq<Pin>)
      ensures pins == initial
    {
      pins := initial;
    }

    /** Merges one approved pin; a failure changes nothing. */
    method MergePin(lib: Library, pin: Pin) returns (r: Result<bool, PinError>)
      modifies this
      ensures match Merge(lib, old(pins), pin)
              case Ok((changed, merged)) => r == Ok(changed) && pins == merged
              case Err(e) => r == Err(e) && pins == old(pins)
    {
      var canonical := ValidatePins(lib, pins);
      if !canonical {
        return Err(InvalidList);
      }
      if !ValidPin(lib, pin) {
        return Err(InvalidPin);
      }
      r := MergeValidPin(pin);
    }

    method MergeValidPin(pin: Pin) returns (r: Result<bool, PinError>)
      modifies this
      ensures match MergeValid(old(pins), pin)
              case Ok((changed, merged)) => r == Ok(changed) && pins == merged
              case Err(e) => r == Err(e) && pins == old(pins)
    {
      var index := 0;
      while index < |pins|
        invariant 0 <= index <= |pins| && pins == old(pins)
        invariant forall j :: 0 <= j < index ==> !Clashes(pins[j], pin)
      {
        var existing := pins[index];
        if existing.device == pin.device {
          FirstClashAt(pins, pin, index);
          if existing == pin {
            return Ok(false);
          }
          if existing.SameIdentity(pin) {
            if pin.proof.None? {
              return Ok(false);
            }
            pins := pins[index := pin];
            return Ok(true);
          }
          return Err(DeviceTaken);
        }
        if existing.key == pin.key {
          FirstClashAt(pins, pin, index);
          return Err(KeyTaken);
        }
        index := index + 1;
      }
      if |pins| >= MAX_BROWSER_PINS {
        return Err(CapacityExhausted);
      }
      pins := Inserted(pins, pin);
      return Ok(true);
    }

    /** Keeps exactly the pins the server still lists, in their order, and counts those dropped. */
    method RetainLive(ghost lib: Library, live: seq<string>) returns (removed: nat)
      modifies this
      ensures pins == Retained(old(pins), set d | d in live)
      ensures forall p :: p in pins <==> p in old(pins) && p.device in live
      ensures removed == |old(pins)| - |pins| && (removed == 0 <==> pins == old(pins))
      ensures Canonical(lib, old(pins)) ==> Canonical(lib, pins)
    {
      ghost var listed := set d | d in live;
      var kept: seq<Pin> := [];
      for i := 0 to |pins|
        invariant pins == old(pins) && kept == Retained(pins[..i], listed)
      {
        assert pins[..i + 1][..i] == pins[..i];
        if pins[i].device in live {
          kept := kept + [pins[i]];
        }
      }
      assert pins[..|pins|] == pins;
      RetainedMembers(pins, listed);
      if Canonical(lib, pins) {
        RetainedCanonical(lib, pins, listed);
      }
      removed := |pins| - |kept|;
      pins := kept;
    }

    /** Adopts the endorsed proposals, judged against the keys held when the pass begins. */
    method AdoptEndorsed(lib: Library, account: string, host: PublicKey, proposed: seq<Proposal>)
      returns (outcomes: seq<Outcome>, adopted: nat)
      modifies this
      ensures (outcomes, pins) == AdoptAll(lib, account, host, Trusted(lib, old(pins)), old(pins), proposed)
      ensures adopted == NewlyAdopted(outcomes)
    {
      var trusted := Trusted(lib, pins);
      outcomes, adopted := [], 0;
      for i := 0 to |proposed|
        invariant (outcomes, pins) == AdoptAll(lib, account, host, trusted, old(pins), proposed[..i])
        invariant adopted == NewlyAdopted(outcomes)
      {
        var outcome := AdoptNext(lib, account, host, trusted, proposed[i]);
        assert proposed[..i + 1][..i] == proposed[..i];
        assert (outcomes + [outcome])[..|outcomes|] == outcomes;
        outcomes := outcomes + [outcome];
        if outcome.newlyAdopted {
          adopted := adopted + 1;
        }
      }
      assert proposed[..|proposed|] == proposed;
    }

    method AdoptNext(lib: Library, account: string, host: PublicKey, trusted: seq<PublicKey>, c: Proposal)
      returns (outcome: Outcome)
      modifies this
      ensures (outcome, pins) == AdoptOne(lib, account, host, trusted, old(pins), c)
    {
      if DevicePinned(pins, c.device) {
        return Outcome(c.device, false, None);
      }
      if !Endorsed(lib, account, host, trusted, c) || PinOf(lib, c).None? {
        return Outcome(c.device, false, Some(InvalidChain));
      }
      if |pins| >= MAX_BROWSER_PINS {
        return Outcome(c.device, false, Some(PinLimit));
      }
      var merged := MergePin(lib, PinOf(lib, c).value);
      if merged.Err? {
        return Outcome(c.device, false, Some(Other));
      }
      return Outcome(c.device, true, None);
    }
  }

  lemma FirstClashAt(pins: seq<Pin>, pin: Pin, k: nat)
    requires k < |pins| && Clashes(pins[k], pin) && forall j :: 0 <= j < k ==> !Clashes(pins[j], pin)
    ensures FirstClash(pins, pin) == k
  {
  }
}
