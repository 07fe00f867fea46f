/**
 The pinned browsers of a host (daemon/src/creds.rs): the rules a pin must meet, the one
 canonical list, and the three ways it changes: merging one pin, retaining the live ones and
 adopting a batch of endorsed ones.
 */
module Pins {
  import opened Base
  import Endorsement

  const MAX_BROWSER_PINS := 32
  const CANONICAL_UUID_BYTES := 36
  const PUBLIC_KEY_WIRE_BYTES := 43
  const FINGERPRINT_HASH_BYTES := 12
  const BROWSER_KEY_ALGORITHM := "ed25519"

  type PublicKey = Endorsement.PublicKey
  type Uuid = seq<Byte>
  type Digest = d: seq<Byte> | |d| == 32 witness seq(32, _ => 0)

  datatype Proof = Proof(account: string, nonce: string, signature: string)

  datatype Pin = Pin(device: string, algorithm: string, key: string, fingerprint: string, proof: Option<Proof>)
  {
    predicate SameIdentity(other: Pin) {
      device == other.device && algorithm == other.algorithm && key == other.key && fingerprint == other.fingerprint
    }
  }

  /** The answers of the libraries the store relies on. Nothing is assumed about them. */
  datatype Library = Library(
    parseUuid: string -> Option<Uuid>,
    uuidText: Uuid -> string,
    onCurve: PublicKey -> bool,
    sha256: seq<Byte> -> Digest,
    proofForm: Proof -> bool,
    approves: (Proof, PublicKey, string) -> bool,
    verify: Endorsement.Verifier,
    hostKey: string -> Option<PublicKey>,
    origin: string -> Option<string>)

  /** The UUID that a text spells, when it is that UUID's canonical text. */
  function UuidFromText(lib: Library, text: string): (r: Option<Uuid>)
    ensures r.Some? ==> lib.uuidText(r.value) == text
  {
    if |text| != CANONICAL_UUID_BYTES || lib.parseUuid(text).None? then None
    else if lib.uuidText(lib.parseUuid(text).value) != text then None
    else lib.parseUuid(text)
  }

  /** The Ed25519 key that an unpadded canonical base64url text spells. */
  function KeyFromWire(lib: Library, text: string): (r: Option<PublicKey>)
    ensures r.Some? ==> Endorsement.Encode(r.value) == text
  {
    var bytes := Endorsement.Decode(text);
    if |text| != PUBLIC_KEY_WIRE_BYTES || bytes.None? || |bytes.value| != Endorsement.PUBLIC_KEY_BYTES then None
    else if !lib.onCurve(bytes.value) || Endorsement.Encode(bytes.value) != text then None
    else bytes
  }

  function Fingerprint(lib: Library, key: PublicKey): (r: string) {
    "SHA256:" + Endorsement.Encode(lib.sha256(key)[..FINGERPRINT_HASH_BYTES])
  }

  function PinFromApproval(lib: Library, device: string, algorithm: string, key: string, fingerprint: string)
    : (r: Option<Pin>)
  {
    if UuidFromText(lib, device).None? || algorithm != BROWSER_KEY_ALGORITHM then None
    else
      match KeyFromWire(lib, key)
      case None => None
      case Some(bytes) =>
        if fingerprint != Fingerprint(lib, bytes) then None
        else Some(Pin(device, algorithm, key, fingerprint, None))
  }

  predicate ValidPin(lib: Library, pin: Pin) {
    && PinFromApproval(lib, pin.device, pin.algorithm, pin.key, pin.fingerprint).Some?
    && (pin.proof.Some? ==> lib.proofForm(pin.proof.value))
  }

  /**
   What makes a pin valid: a canonical UUID text, the one algorithm, the text of 32 bytes that are a key, and the
   fingerprint computed from them.
   */
  lemma ValidPinRules(lib: Library, pin: Pin)
    ensures ValidPin(lib, pin)
       <==> && |pin.device| == 36 && lib.parseUuid(pin.device).Some?
            && lib.uuidText(lib.parseUuid(pin.device).value) == pin.device
            && pin.algorithm == "ed25519"
            && (exists key :: && |key| == 32 && lib.onCurve(key) && pin.key == Endorsement.Encode(key)
                              && pin.fingerprint == "SHA256:" + Endorsement.Encode(lib.sha256(key)[..12]))
            && (pin.proof.Some? ==> lib.proofForm(pin.proof.value))
  {
    forall key | |key| == 32 && pin.key == Endorsement.Encode(key) && lib.onCurve(key)
      ensures KeyFromWire(lib, pin.key) == Some(key)
    {
      Endorsement.DecodeEncode(key);
    }
    if KeyFromWire(lib, pin.key).Some? {
      var key := KeyFromWire(lib, pin.key).value;
      assert |key| == 32 && lib.onCurve(key) && pin.key == Endorsement.Encode(key);
    }
  }

  /** For valid pins the identity is the device and the key. */
  lemma IdentityIsDeviceAndKey(lib: Library, p: Pin, q: Pin)
    requires ValidPin(lib, p) && ValidPin(lib, q)
    ensures p.SameIdentity(q) <==> p.device == q.device && p.key == q.key
  {
  }

  // ---- The order of device names ---------------------------------------------------

  /** Lexicographic order, the order of the canonical texts. */
  predicate Before(a: string, b: string) {
    b != [] && (a == [] || a[0] < b[0] || (a[0] == b[0] && Before(a[1..], b[1..])))
  }

  lemma {:induction false} BeforeIsTransitive(a: string, b: string, c: string)
    requires Before(a, b) && Before(b, c)
    ensures Before(a, c)
  {
    if a != [] && a[0] == b[0] == c[0] {
      BeforeIsTransitive(a[1..], b[1..], c[1..]);
    }
  }

  lemma {:induction false} BeforeIsTotal(a: string, b: string)
    ensures Before(a, b) || Before(b, a) || a == b
    ensures !(Before(a, b) && Before(b, a))
    ensures !Before(a, a)
  {
    if a != [] && b != [] {
      BeforeIsTotal(a[1..], b[1..]);
      assert a == [a[0]] + a[1..] && b == [b[0]] + b[1..];
    }
    if a != [] {
      BeforeIsTotal(a[1..], a[1..]);
    }
  }

  /** One text comes before another: it is a proper beginning, or smaller at the first difference. */
  lemma {:induction false} BeforeIsLexicographic(a: string, b: string)
    ensures Before(a, b)
       <==> exists i :: && 0 <= i <= |a| && i < |b| && (forall j :: 0 <= j < i ==> a[j] == b[j])
                        && (i == |a| || a[i] < b[i])
  {
    if a != [] && b != [] && a[0] == b[0] {
      BeforeIsLexicographic(a[1..], b[1..]);
      if Before(a[1..], b[1..]) {
        var i :| && 0 <= i <= |a[1..]| && i < |b[1..]| && (forall j :: 0 <= j < i ==> a[1..][j] == b[1..][j])
                 && (i == |a[1..]| || a[1..][i] < b[1..][i]);
        forall j | 0 <= j < i + 1 ensures a[j] == b[j] {
          assert j > 0 ==> a[1..][j - 1] == b[1..][j - 1];
        }
        assert i + 1 == |a| || a[i + 1] < b[i + 1];
      }
      if exists i :: && 0 <= i <= |a| && i < |b| && (forall j :: 0 <= j < i ==> a[j] == b[j])
                     && (i == |a| || a[i] < b[i]) {
        var i :| && 0 <= i <= |a| && i < |b| && (forall j :: 0 <= j < i ==> a[j] == b[j])
                 && (i == |a| || a[i] < b[i]);
        assert forall j :: 0 <= j < i - 1 ==> a[1..][j] == b[1..][j];
        assert i - 1 == |a[1..]| || a[1..][i - 1] < b[1..][i - 1];
      }
    } else if Before(a, b) {
      assert 0 == |a| || a[0] < b[0];
    }
  }

  // ---- The canonical list ------------------------------------------------------------

  predicate Sorted(pins: seq<Pin>) {
    forall i, j :: 0 <= i < j < |pins| ==> Before(pins[i].device, pins[j].device)
  }

  predicate OneDevicePerKey(pins: seq<Pin>) {
    forall i, j :: 0 <= i < j < |pins| ==> pins[i].key != pins[j].key
  }

  predicate AllValid(lib: Library, pins: seq<Pin>) {
    forall p :: p in pins ==> ValidPin(lib, p)
  }

  predicate Canonical(lib: Library, pins: seq<Pin>) {
    |pins| <= MAX_BROWSER_PINS && AllValid(lib, pins) && Sorted(pins) && OneDevicePerKey(pins)
  }

  /** In a sorted list a device names one pin. */
  lemma SortedIsUnique(pins: seq<Pin>, i: int, j: int)
    requires Sorted(pins) && 0 <= i < |pins| && 0 <= j < |pins| && pins[i].device == pins[j].device
    ensures i == j
  {
    BeforeIsTotal(pins[i].device, pins[j].device);
  }

  /** A sorted list is determined by its members. */
  lemma {:induction false} SortedDetermined(a: seq<Pin>, b: seq<Pin>)
    requires Sorted(a) && Sorted(b) && forall p :: p in a <==> p in b
    ensures a == b
  {
    if a == [] {
      HasMember(b);
    } else {
      assert a[0] in b;
      var m, n := |a| - 1, |b| - 1;
      SameLast(a, b);
      forall p ensures p in a[..m] <==> p in b[..n] {
        PrefixMember(a, p);
        PrefixMember(b, p);
      }
      SortedDetermined(a[..m], b[..n]);
      assert a == a[..m] + [a[m]] && b == b[..n] + [b[n]];
    }
  }

  lemma HasMember(b: seq<Pin>)
    ensures b == [] || exists p :: p in b
  {
    assert b != [] ==> b[0] in b;
  }

  lemma SameLast(a: seq<Pin>, b: seq<Pin>)
    requires Sorted(a) && Sorted(b) && a != [] && b != []
    requires a[|a| - 1] in b && b[|b| - 1] in a
    ensures a[|a| - 1] == b[|b| - 1]
  {
    var m, n := |a| - 1, |b| - 1;
    var i: nat :| i < |b| && b[i] == a[m];
    var j: nat :| j < |a| && a[j] == b[n];
    if i < n && j < m {
      BeforeIsTotal(a[m].device, b[n].device);
    }
  }

  lemma PrefixMember(a: seq<Pin>, p: Pin)
    requires Sorted(a) && a != []
    ensures p in a[..|a| - 1] <==> p in a && p != a[|a| - 1]
  {
    if p in a[..|a| - 1] {
      var k: nat :| k < |a| - 1 && a[k] == p;
      BeforeIsTotal(p.device, p.device);
    }
  }

  /** The source's one-pass validation: adjacent order and two sets seen so far. */
  method ValidatePins(lib: Library, pins: seq<Pin>) returns (ok: bool)
    ensures ok <==> Canonical(lib, pins)
  {
    if |pins| > MAX_BROWSER_PINS {
      return false;
    }
    var devices: set<string>, keys: set<string> := {}, {};
    var i := 0;
    while i < |pins|
      invariant 0 <= i <= |pins|
      invariant Prefix(lib, pins, i)
      invariant devices == set j | 0 <= j < i :: pins[j].device
      invariant keys == set j | 0 <= j < i :: pins[j].key
    {
      var pin := pins[i];
      if !ValidPin(lib, pin) {
        assert pin in pins;
        return false;
      }
      if i > 0 && !Before(pins[i - 1].device, pin.device) {
        assert !Sorted(pins);
        return false;
      }
      if pin.device in devices {
        DuplicateDevice(pins, i);
        return false;
      }
      if pin.key in keys {
        DuplicateKey(pins, i);
        return false;
      }
      PrefixExtends(lib, pins, i);
      devices := devices + {pin.device};
      keys := keys + {pin.key};
      i := i + 1;
    }
    assert pins[..i] == pins;
    return true;
  }

  ghost predicate Prefix(lib: Library, pins: seq<Pin>, i: nat)
    requires i <= |pins|
  {
    AllValid(lib, pins[..i]) && Sorted(pins[..i]) && OneDevicePerKey(pins[..i])
  }

  lemma DuplicateDevice(pins: seq<Pin>, i: nat)
    requires i < |pins| && exists j :: 0 <= j < i && pins[j].device == pins[i].device
    ensures !Sorted(pins)
  {
    BeforeIsTotal(pins[i].device, pins[i].device);
  }

  lemma DuplicateKey(pins: seq<Pin>, i: nat)
    requires i < |pins| && exists j :: 0 <= j < i && pins[j].key == pins[i].key
    ensures !OneDevicePerKey(pins)
  {
  }

  lemma PrefixExtends(lib: Library, pins: seq<Pin>, i: nat)
    requires i < |pins| && Prefix(lib, pins, i) && ValidPin(lib, pins[i])
    requires i > 0 ==> Before(pins[i - 1].device, pins[i].device)
    requires forall j :: 0 <= j < i ==> pins[j].key != pins[i].key
    ensures Prefix(lib, pins, i + 1)
  {
    SortedExtends(pins, i);
    KeysExtend(pins, i);
    assert pins[..i + 1] == pins[..i] + [pins[i]];
  }

  lemma SortedExtends(pins: seq<Pin>, i: nat)
    requires i < |pins| && Sorted(pins[..i])
    requires i > 0 ==> Before(pins[i - 1].device, pins[i].device)
    ensures Sorted(pins[..i + 1])
  {
    var a, b := pins[..i], pins[..i + 1];
    forall j, k | 0 <= j < k < i + 1 ensures Before(b[j].device, b[k].device) {
      if k < i {
        assert Before(a[j].device, a[k].device);
      } else if j < i - 1 {
        assert Before(a[j].device, a[i - 1].device);
        BeforeIsTransitive(pins[j].device, pins[i - 1].device, pins[i].device);
      }
    }
  }

  lemma KeysExtend(pins: seq<Pin>, i: nat)
    requires i < |pins| && OneDevicePerKey(pins[..i])
    requires forall j :: 0 <= j < i ==> pins[j].key != pins[i].key
    ensures OneDevicePerKey(pins[..i + 1])
  {
  }

  // ---- Merging one pin -------------------------------------------------------------------

  datatype PinError = InvalidList | InvalidPin | DeviceTaken | KeyTaken | CapacityExhausted

  predicate Clashes(p: Pin, pin: Pin) { p.device == pin.device || p.key == pin.key }

  /** The first pin of the list that shares the device or the key. */
  function FirstClash(pins: seq<Pin>, pin: Pin): (k: nat)
    ensures k <= |pins| && forall j :: 0 <= j < k ==> !Clashes(pins[j], pin)
    ensures k < |pins| ==> Clashes(pins[k], pin)
  {
    if pins == [] then 0
    else
      var k := FirstClash(pins[..|pins| - 1], pin);
      if k < |pins| - 1 || Clashes(pins[k], pin) then k else k + 1
  }

  /** Where sorting puts a pin pushed onto a sorted list. */
  function Place(pins: seq<Pin>, pin: Pin): (k: nat)
    ensures k <= |pins|
  {
    if pins == [] then 0
    else if Before(pins[|pins| - 1].device, pin.device) then |pins|
    else Place(pins[..|pins| - 1], pin)
  }

  function Inserted(pins: seq<Pin>, pin: Pin): (r: seq<Pin>)
    ensures |r| == |pins| + 1
    ensures forall p :: p in r <==> p in pins || p == pin
  {
    var k := Place(pins, pin);
    assert pins == pins[..k] + pins[k..];
    pins[..k] + [pin] + pins[k..]
  }

  lemma {:induction false} PlaceSplits(pins: seq<Pin>, pin: Pin)
    requires Sorted(pins) && forall p :: p in pins ==> p.device != pin.device
    ensures var k := Place(pins, pin);
            && (forall i :: 0 <= i < k ==> Before(pins[i].device, pin.device))
            && forall i :: k <= i < |pins| ==> Before(pin.device, pins[i].device)
  {
    if pins != [] {
      var n := |pins| - 1;
      BeforeIsTotal(pins[n].device, pin.device);
      if Before(pins[n].device, pin.device) {
        forall i | 0 <= i < n ensures Before(pins[i].device, pin.device) {
          BeforeIsTransitive(pins[i].device, pins[n].device, pin.device);
        }
      } else {
        PlaceSplits(pins[..n], pin);
      }
    }
  }

  /** Pushing and sorting gives the sorted list of the same members, and so the only one. */
  lemma InsertedSorted(pins: seq<Pin>, pin: Pin)
    requires Sorted(pins) && forall p :: p in pins ==> p.device != pin.device
    ensures Sorted(Inserted(pins, pin))
  {
    PlaceSplits(pins, pin);
  }

  lemma InsertedKeys(pins: seq<Pin>, pin: Pin)
    requires OneDevicePerKey(pins) && forall p :: p in pins ==> p.key != pin.key
    ensures OneDevicePerKey(Inserted(pins, pin))
  {
  }

  function Merge(lib: Library, pins: seq<Pin>, pin: Pin): (r: Result<(bool, seq<Pin>), PinError>)
  {
    if !Canonical(lib, pins) then Err(InvalidList)
    else if !ValidPin(lib, pin) then Err(InvalidPin)
    else MergeValid(pins, pin)
  }

  function MergeValid(pins: seq<Pin>, pin: Pin): (r: Result<(bool, seq<Pin>), PinError>)
  {
    var k := FirstClash(pins, pin);
    if k == |pins| then
      if |pins| >= MAX_BROWSER_PINS then Err(CapacityExhausted) else Ok((true, Inserted(pins, pin)))
    else if pins[k].device != pin.device then Err(KeyTaken)
    else if pins[k] == pin then Ok((false, pins))
    else if !pins[k].SameIdentity(pin) then Err(DeviceTaken)
    else if pin.proof.None? then Ok((false, pins))
    else Ok((true, pins[k := pin]))
  }

  predicate Pinned(pins: seq<Pin>, device: string, key: string) {
    exists p :: p in pins && p.device == device && p.key == key
  }

  predicate Free(pins: seq<Pin>, pin: Pin) {
    forall p :: p in pins ==> !Clashes(p, pin)
  }

  /** Exactly when a merge succeeds: a new device with a new key and room, or the same device and key again. */
  lemma MergeSucceedsIff(lib: Library, pins: seq<Pin>, pin: Pin)
    ensures Merge(lib, pins, pin).Ok?
       <==> Canonical(lib, pins) && ValidPin(lib, pin)
            && ((Free(pins, pin) && |pins| < MAX_BROWSER_PINS) || Pinned(pins, pin.device, pin.key))
  {
    if Canonical(lib, pins) && ValidPin(lib, pin) {
      var k := FirstClash(pins, pin);
      if k < |pins| {
        assert pins[k] in pins;
        IdentityIsDeviceAndKey(lib, pins[k], pin);
        if Pinned(pins, pin.device, pin.key) {
          PinnedIsFirstClash(pins, pin);
        }
      }
    }
  }

  lemma PinnedIsFirstClash(pins: seq<Pin>, pin: Pin)
    requires Sorted(pins) && OneDevicePerKey(pins) && Pinned(pins, pin.device, pin.key)
    ensures var k := FirstClash(pins, pin);
            k < |pins| && pins[k].device == pin.device && pins[k].key == pin.key
  {
    var j: nat :| j < |pins| && pins[j].device == pin.device && pins[j].key == pin.key;
    var k := FirstClash(pins, pin);
    if pins[k].device == pin.device {
      SortedIsUnique(pins, j, k);
    }
  }

  /** Why a merge of a valid pin into a canonical list fails. */
  lemma MergeFailures(lib: Library, pins: seq<Pin>, pin: Pin)
    requires Canonical(lib, pins) && ValidPin(lib, pin) && Merge(lib, pins, pin).Err?
    ensures match Merge(lib, pins, pin).error
            case CapacityExhausted => Free(pins, pin) && |pins| == 32
            case DeviceTaken => exists p :: p in pins && p.device == pin.device && p.key != pin.key
            case KeyTaken => exists p :: p in pins && p.key == pin.key && p.device != pin.device
            case _ => false
  {
    var k := FirstClash(pins, pin);
    if k < |pins| {
      assert pins[k] in pins;
      IdentityIsDeviceAndKey(lib, pins[k], pin);
    }
  }

  /** What a successful merge holds: every other pin as it was, and for this device the better evidence. */
  lemma MergeHolds(lib: Library, pins: seq<Pin>, pin: Pin)
    requires Merge(lib, pins, pin).Ok?
    ensures var (changed, r) := Merge(lib, pins, pin).value;
            && (changed <==> r != pins)
            && (Free(pins, pin) ==> changed && |r| == |pins| + 1)
            && (forall p :: p in r <==>
                  || (p in pins && (p.device != pin.device || pin.proof.None?))
                  || (p == pin && (pin.proof.Some? || Free(pins, pin))))
  {
    MergeValidHolds(pins, pin);
  }

  lemma MergeValidHolds(pins: seq<Pin>, pin: Pin)
    requires Sorted(pins) && MergeValid(pins, pin).Ok?
    ensures var (changed, r) := MergeValid(pins, pin).value;
            && (changed <==> r != pins)
            && (Free(pins, pin) ==> changed && |r| == |pins| + 1)
            && (forall p :: p in r <==>
                  || (p in pins && (p.device != pin.device || pin.proof.None?))
                  || (p == pin && (pin.proof.Some? || Free(pins, pin))))
  {
    var k := FirstClash(pins, pin);
    if k == |pins| {
      assert Free(pins, pin);
      assert forall p :: p in pins ==> p.device != pin.device;
    } else {
      var p := pins[k];
      assert p in pins && !Free(pins, pin);
      if pin.proof.Some? {
        UpdatedMembers(pins, k, pin);
        assert pins[k := pin][k] == pin;
        assert p == pin ==> pins[k := pin] == pins;
      }
    }
  }

  lemma UpdatedMembers(pins: seq<Pin>, k: nat, pin: Pin)
    requires k < |pins| && Sorted(pins) && pins[k].device == pin.device
    ensures forall p :: p in pins[k := pin] <==> (p in pins && p.device != pin.device) || p == pin
  {
    forall p ensures p in pins[k := pin] <==> (p in pins && p.device != pin.device) || p == pin {
      if p in pins && p.device != pin.device {
        var j: nat :| j < |pins| && pins[j] == p;
        assert pins[k := pin][j] == p;
      }
      if p in pins[k := pin] && p != pin {
        var j: nat :| j < |pins| && pins[k := pin][j] == p;
        if p.device == pin.device {
          SortedIsUnique(pins, j, k);
        }
      }
      assert pins[k := pin][k] == pin;
    }
  }

  /** Merging keeps the list canonical. */
  lemma MergeCanonical(lib: Library, pins: seq<Pin>, pin: Pin)
    requires Merge(lib, pins, pin).Ok?
    ensures Canonical(lib, Merge(lib, pins, pin).value.1)
  {
    var k := FirstClash(pins, pin);
    if k == |pins| {
      assert forall p :: p in pins ==> p.device != pin.device && p.key != pin.key;
      InsertedSorted(pins, pin);
      InsertedKeys(pins, pin);
    }
  }

  /** A proof that is held is never dropped, and every identity stays pinned. */
  lemma MergeKeepsProofs(lib: Library, pins: seq<Pin>, pin: Pin, p: Pin)
    requires Merge(lib, pins, pin).Ok? && p in pins
    ensures exists q :: q in Merge(lib, pins, pin).value.1 && q.SameIdentity(p) && (p.proof.Some? ==> q.proof.Some?)
  {
    MergeHolds(lib, pins, pin);
    var r := Merge(lib, pins, pin).value.1;
    if p in r {
      assert p.SameIdentity(p);
    } else {
      MergeSucceedsIff(lib, pins, pin);
      assert Clashes(p, pin);
      PinnedIsFirstClash(pins, pin);
      var k := FirstClash(pins, pin);
      var j: nat :| j < |pins| && pins[j] == p;
      SortedIsUnique(pins, j, k);
      IdentityIsDeviceAndKey(lib, p, pin);
      assert pin in r && pin.SameIdentity(p) && pin.proof.Some?;
    }
  }
}
