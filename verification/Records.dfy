/**
 The credential record (daemon/src/creds.rs): its generation marker and revision, the validators,
 and the choice between the file copy and the keyring copy.
 */
module Records {
  import opened Base
  import opened Pins

  type U8 = n: int | 0 <= n < 0x100
  type U64 = n: int | 0 <= n < 0x1_0000_0000_0000_0000

  const CREDENTIAL_RECORD_VERSION: U8 := 1
  const MAX_CREDENTIALS_FILE_BYTES := 16 * 1024
  const MAX_ACCESS_TOKEN_BYTES := 12 * 1024
  const MAX_SERVER_URL_BYTES := 2048
  const ED25519_SEED_B64URL_LENGTH := 43
  const MAX_GENERATION: U64 := 0xFFFF_FFFF_FFFF_FFFF

  datatype Marker = Marker(version: Option<U8>, generation: Option<U64>, id: Option<string>)

  datatype Content = Content(token: Option<string>, hostId: Option<Uuid>, serverUrl: Option<string>,
                             seed: Option<string>, pins: seq<Pin>)

  datatype Record = Record(marker: Marker, content: Content)

  const NO_MARKER := Marker(None, None, None)
  const NO_CONTENT := Content(None, None, None, None, [])
  const EMPTY := Record(NO_MARKER, NO_CONTENT)

  datatype Policy = UnixCompleteFile | WindowsCompleteFile | NativeKeyring
  {
    predicate CompleteFile() { UnixCompleteFile? || WindowsCompleteFile? }
  }

  datatype StoreError =
    | MalformedMarker
    | UnsupportedVersion(version: U8)
    | GenerationExhausted
    | InvalidRecord
    | Incomplete
    | TooLarge
    | NoKeyringRecord
    | LegacyKeyring
    | BackendsDisagree
    | FieldConflict
    | PinConflict(pin: PinError)
    | MigrationConflict
    | CorruptEntry
    | MigrationWriteFailed
    | MigrationDeleteFailed
    | BaseChanged
    | Stale
    | KeyringWriteFailed
    | FileWriteFailed

  /** The libraries, and the sizes of a record's two serialized forms. */
  datatype Env = Env(lib: Library, prettyLength: Record -> nat, compactLength: Record -> nat)

  // ---- Markers and revisions ------------------------------------------------------------

  datatype Order = Order(generation: U64, id: Uuid)

  function RecordOrder(lib: Library, m: Marker): (r: Result<Option<Order>, StoreError>)
  {
    match (m.version, m.generation, m.id)
    case (None, None, None) => Ok(None)
    case (Some(version), Some(generation), Some(id)) =>
      if version != CREDENTIAL_RECORD_VERSION then Err(UnsupportedVersion(version))
      else if generation == 0 || UuidFromText(lib, id).None? then Err(MalformedMarker)
      else Ok(Some(Order(generation, UuidFromText(lib, id).value)))
    case _ => Err(MalformedMarker)
  }

  predicate Versioned(lib: Library, r: Record) {
    RecordOrder(lib, r.marker).Ok? && RecordOrder(lib, r.marker).value.Some?
  }

  predicate Legacy(lib: Library, r: Record) { RecordOrder(lib, r.marker) == Ok(None) }

  /** The order read from a marker identifies the marker. */
  lemma OrderIdentifies(lib: Library, m: Marker, m': Marker)
    requires RecordOrder(lib, m).Ok? && RecordOrder(lib, m) == RecordOrder(lib, m')
    ensures m == m'
  {
  }

  /** The forms a marker may take: none of its parts, or all of them, of version 1, numbered from 1. */
  lemma MarkerForms(lib: Library, m: Marker)
    ensures RecordOrder(lib, m) == Ok(None) <==> m == Marker(None, None, None)
    ensures RecordOrder(lib, m).Ok? && RecordOrder(lib, m).value.Some?
       <==> && m.version == Some(1) && m.generation.Some? && m.generation.value > 0
            && m.id.Some? && |m.id.value| == 36 && lib.parseUuid(m.id.value).Some?
            && lib.uuidText(lib.parseUuid(m.id.value).value) == m.id.value
    ensures RecordOrder(lib, m).Ok? && RecordOrder(lib, m).value.Some? ==>
              RecordOrder(lib, m).value.value == Order(m.generation.value, lib.parseUuid(m.id.value).value)
  {
  }

  /** The digest of a legacy record stands for the record it was taken from. */
  datatype Revision = Current(order: Order) | LegacyDigest(record: Record)

  function RevisionOf(lib: Library, r: Record): (v: Result<Revision, StoreError>)
  {
    match RecordOrder(lib, r.marker)
    case Err(e) => Err(e)
    case Ok(Some(order)) => Ok(Current(order))
    case Ok(None) => Ok(LegacyDigest(r))
  }

  /** Equal revisions: the same marker, and for a legacy record the same record. */
  lemma RevisionIdentifies(lib: Library, r: Record, s: Record)
    requires RevisionOf(lib, r).Ok? && RevisionOf(lib, r) == RevisionOf(lib, s)
    ensures r.marker == s.marker && (Legacy(lib, r) ==> r == s)
  {
  }

  function Advanced(lib: Library, r: Record, id: string): (v: Result<Record, StoreError>)
  {
    match RecordOrder(lib, r.marker)
    case Err(e) => Err(e)
    case Ok(Some(order)) =>
      if order.generation == MAX_GENERATION then Err(GenerationExhausted)
      else Ok(r.(marker := Marker(Some(CREDENTIAL_RECORD_VERSION), Some(order.generation + 1), Some(id))))
    case Ok(None) => Ok(r.(marker := Marker(Some(CREDENTIAL_RECORD_VERSION), Some(1), Some(id))))
  }

  /**
   Advancing gives the next generation under the new id and leaves the content alone. It fails exactly for
   a malformed marker and at the largest generation.
   */
  lemma AdvancedOrder(lib: Library, r: Record, id: string)
    requires UuidFromText(lib, id).Some?
    ensures Advanced(lib, r, id).Ok?
       <==> Legacy(lib, r) || (Versioned(lib, r) && RecordOrder(lib, r.marker).value.value.generation < MAX_GENERATION)
    ensures Advanced(lib, r, id).Ok? ==>
              var next := Advanced(lib, r, id).value;
              && next.content == r.content && next.marker.id == Some(id)
              && RecordOrder(lib, next.marker)
                 == Ok(Some(Order(if Legacy(lib, r) then 1 else RecordOrder(lib, r.marker).value.value.generation + 1,
                                  UuidFromText(lib, id).value)))
  {
  }

  // ---- Validation --------------------------------------------------------------------------

  /** The host's public key: the outer option is a failure to decode the seed. */
  function HostIdentity(lib: Library, c: Content): (r: Option<Option<PublicKey>>)
  {
    match c.seed
    case None => Some(None)
    case Some(seed) =>
      if |seed| != ED25519_SEED_B64URL_LENGTH then None
      else match lib.hostKey(seed) case Some(key) => Some(Some(key)) case None => None
  }

  predicate ApprovalsHold(lib: Library, c: Content, host: PublicKey) {
    forall p :: p in c.pins && p.proof.Some? ==> lib.approves(p.proof.value, host, p.key)
  }

  predicate TrustDomain(lib: Library, c: Content) {
    c.pins != [] ==> c.hostId.Some? && c.serverUrl.Some? && lib.origin(c.serverUrl.value).Some?
  }

  predicate ValidContent(lib: Library, c: Content) {
    && (c.token.Some? ==> |c.token.value| <= MAX_ACCESS_TOKEN_BYTES)
    && (c.serverUrl.Some? ==> |c.serverUrl.value| <= MAX_SERVER_URL_BYTES)
    && HostIdentity(lib, c).Some?
    && Canonical(lib, c.pins)
    && (HostIdentity(lib, c).value.Some? ==> ApprovalsHold(lib, c, HostIdentity(lib, c).value.value))
    && TrustDomain(lib, c)
  }

  predicate ValidLoaded(lib: Library, r: Record) {
    RecordOrder(lib, r.marker).Ok? && ValidContent(lib, r.content)
  }

  predicate Complete(lib: Library, r: Record) {
    Versioned(lib, r) ==> r.content.seed.Some?
  }

  predicate Persistable(env: Env, r: Record) {
    && ValidLoaded(env.lib, r)
    && env.prettyLength(r) <= MAX_CREDENTIALS_FILE_BYTES && env.compactLength(r) <= MAX_CREDENTIALS_FILE_BYTES
  }

  /** What makes a content valid, rule by rule. */
  lemma ValidContentRules(lib: Library, c: Content)
    ensures ValidContent(lib, c)
       <==> && (c.token.Some? ==> |c.token.value| <= 12288)
            && (c.serverUrl.Some? ==> |c.serverUrl.value| <= 2048)
            && (c.seed.Some? ==> |c.seed.value| == 43 && lib.hostKey(c.seed.value).Some?)
            && Canonical(lib, c.pins)
            && (c.seed.Some? ==>
                  forall p :: p in c.pins && p.proof.Some? ==>
                    lib.approves(p.proof.value, lib.hostKey(c.seed.value).value, p.key))
            && (c.pins != [] ==> c.hostId.Some? && c.serverUrl.Some? && lib.origin(c.serverUrl.value).Some?)
  {
  }

  // ---- Legacy merging ------------------------------------------------------------------------

  function MergeField<T(==)>(target: Option<T>, source: Option<T>): (r: Result<Option<T>, StoreError>)
    ensures r.Ok? <==> target.None? || source.None? || target == source
    ensures r.Ok? ==> (target.Some? ==> r.value == target) && (source.Some? ==> r.value == source)
    ensures r.Ok? && target.None? && source.None? ==> r.value.None?
  {
    match (target, source)
    case (Some(left), Some(right)) => if left != right then Err(FieldConflict) else Ok(target)
    case (None, Some(_)) => Ok(source)
    case _ => Ok(target)
  }

  function MergePins(lib: Library, pins: seq<Pin>, more: seq<Pin>): (r: Result<seq<Pin>, StoreError>)
  {
    if more == [] then Ok(pins)
    else
      var n := |more| - 1;
      match MergePins(lib, pins, more[..n])
      case Err(e) => Err(e)
      case Ok(held) =>
        match Merge(lib, held, more[n])
        case Err(e) => Err(PinConflict(e))
        case Ok((_, next)) => Ok(next)
  }

  function MergeContents(lib: Library, file: Content, keyring: Content): (r: Result<Content, StoreError>)
  {
    match (MergeField(file.token, keyring.token), MergeField(file.hostId, keyring.hostId),
           MergeField(file.serverUrl, keyring.serverUrl), MergeField(file.seed, keyring.seed))
    case (Ok(token), Ok(hostId), Ok(serverUrl), Ok(seed)) =>
      (match MergePins(lib, file.pins, keyring.pins)
       case Ok(pins) => Ok(Content(token, hostId, serverUrl, seed, pins))
       case Err(e) => Err(e))
    case _ => Err(FieldConflict)
  }

  /** The list still pins this device to this key, with a proof if this pin has one. */
  predicate Keeps(pins: seq<Pin>, p: Pin) {
    exists q :: q in pins && q.SameIdentity(p) && (p.proof.Some? ==> q.proof.Some?)
  }

  predicate KeepsAll(pins: seq<Pin>, wanted: seq<Pin>) {
    forall p :: p in wanted ==> Keeps(pins, p)
  }

  predicate FieldWithin<T(==)>(part: Option<T>, whole: Option<T>) { part.None? || whole == part }

  /** Every field that one content has is in the other, and every pin is kept with its proof. */
  predicate Within(part: Content, whole: Content) {
    && FieldWithin(part.token, whole.token) && FieldWithin(part.hostId, whole.hostId)
    && FieldWithin(part.serverUrl, whole.serverUrl) && FieldWithin(part.seed, whole.seed)
    && KeepsAll(whole.pins, part.pins)
  }

  lemma KeepsMembers(pins: seq<Pin>, wanted: seq<Pin>)
    requires forall p :: p in wanted ==> p in pins
    ensures KeepsAll(pins, wanted)
  {
  }

  lemma WithinItself(c: Content)
    ensures Within(c, c)
  {
  }

  /** Merging pins keeps both lists' pins and proofs and invents no pin. */
  lemma {:induction false} MergePinsKeeps(lib: Library, pins: seq<Pin>, more: seq<Pin>)
    requires Canonical(lib, pins) && MergePins(lib, pins, more).Ok?
    ensures var r := MergePins(lib, pins, more).value;
            && Canonical(lib, r) && KeepsAll(r, pins) && KeepsAll(r, more)
            && forall q :: q in r ==> q in pins || q in more
  {
    if more == [] {
      KeepsMembers(pins, pins);
    } else {
      var n := |more| - 1;
      var held := MergePins(lib, pins, more[..n]).value;
      var r := MergePins(lib, pins, more).value;
      MergePinsKeeps(lib, pins, more[..n]);
      MergeCanonical(lib, held, more[n]);
      MergeKeeps(lib, held, more[n]);
      KeepsNext(r, held, pins, more);
    }
  }

  lemma KeepsNext(r: seq<Pin>, held: seq<Pin>, pins: seq<Pin>, more: seq<Pin>)
    requires more != [] && KeepsAll(held, pins) && KeepsAll(held, more[..|more| - 1])
    requires KeepsAll(r, held) && Keeps(r, more[|more| - 1])
    ensures KeepsAll(r, pins) && KeepsAll(r, more)
  {
    assert more == more[..|more| - 1] + [more[|more| - 1]];
    StillKeeps(r, held, pins);
    StillKeeps(r, held, more[..|more| - 1]);
  }

  lemma StillKeeps(r: seq<Pin>, held: seq<Pin>, wanted: seq<Pin>)
    requires KeepsAll(r, held) && KeepsAll(held, wanted)
    ensures KeepsAll(r, wanted)
  {
  }

  lemma MergeKeeps(lib: Library, pins: seq<Pin>, pin: Pin)
    requires Merge(lib, pins, pin).Ok?
    ensures var r := Merge(lib, pins, pin).value.1;
            KeepsAll(r, pins) && Keeps(r, pin) && forall q :: q in r ==> q in pins || q == pin
  {
    var r := Merge(lib, pins, pin).value.1;
    forall p | p in pins ensures Keeps(r, p) {
      MergeKeepsProofs(lib, pins, pin, p);
    }
    MergeHolds(lib, pins, pin);
    if pin in r {
      assert pin.SameIdentity(pin);
    } else {
      MergeSucceedsIff(lib, pins, pin);
      var q :| q in pins && q.device == pin.device && q.key == pin.key;
      IdentityIsDeviceAndKey(lib, q, pin);
      assert q in r && q.SameIdentity(pin) && pin.proof.None?;
    }
  }

  /** A merged content holds all of both and agrees with each on what it has. */
  lemma MergedHoldsBoth(lib: Library, file: Content, keyring: Content)
    requires Canonical(lib, file.pins) && MergeContents(lib, file, keyring).Ok?
    ensures var r := MergeContents(lib, file, keyring).value; Within(file, r) && Within(keyring, r)
  {
    MergePinsKeeps(lib, file.pins, keyring.pins);
  }

  // ---- Choosing between the two copies --------------------------------------------------------

  function WithoutSeed(r: Record): (s: Record) { r.(content := r.content.(seed := None)) }

  function ReconcileLegacy(lib: Library, file: Record, keyring: Record, policy: Policy): (r: Result<Record, StoreError>)
  {
    if policy.CompleteFile() && (file.content.token.Some? || file.content.seed.Some?) then Ok(file)
    else
      match MergeContents(lib, file.content, keyring.content)
      case Ok(content) => Ok(file.(content := content))
      case Err(e) => Err(e)
  }

  function ChooseComplete(lib: Library, file: Record, keyring: Record): (r: Result<Record, StoreError>)
  {
    if RecordOrder(lib, file.marker) == RecordOrder(lib, keyring.marker) && file != keyring then Err(BackendsDisagree)
    else Ok(file)
  }

  function ReconcileNative(lib: Library, file: Record, keyring: Record): (r: Result<Record, StoreError>)
  {
    if RecordOrder(lib, file.marker) == RecordOrder(lib, keyring.marker) && WithoutSeed(keyring) != file
    then Err(BackendsDisagree)
    else Ok(keyring)
  }

  function ReconcileBoth(lib: Library, file: Record, keyring: Record, policy: Policy): (r: Result<Record, StoreError>)
  {
    match (RecordOrder(lib, file.marker), RecordOrder(lib, keyring.marker))
    case (Err(e), _) => Err(e)
    case (_, Err(e)) => Err(e)
    case (Ok(None), Ok(None)) => ReconcileLegacy(lib, file, keyring, policy)
    case (Ok(Some(_)), Ok(None)) => if policy.CompleteFile() then Ok(file) else Err(LegacyKeyring)
    case (Ok(None), Ok(Some(_))) =>
      if policy.CompleteFile() && (file.content.token.Some? || file.content.seed.Some?) then Ok(file) else Ok(keyring)
    case (Ok(Some(_)), Ok(Some(_))) =>
      if policy.CompleteFile() then ChooseComplete(lib, file, keyring) else ReconcileNative(lib, file, keyring)
  }

  function Reconcile(lib: Library, file: Option<Record>, keyring: Option<Record>, policy: Policy)
    : (r: Result<Record, StoreError>)
  {
    match (file, keyring)
    case (None, None) => Ok(EMPTY)
    case (Some(f), None) =>
      (match RecordOrder(lib, f.marker)
       case Err(e) => Err(e)
       case Ok(_) => if policy.CompleteFile() || f == EMPTY then Ok(f) else Err(NoKeyringRecord))
    case (None, Some(k)) => (match RecordOrder(lib, k.marker) case Err(e) => Err(e) case Ok(_) => Ok(k))
    case (Some(f), Some(k)) => ReconcileBoth(lib, f, k, policy)
  }

  /** Which copy is chosen when only one is there, or neither. */
  lemma OneCopy(lib: Library, copy: Record, policy: Policy)
    requires RecordOrder(lib, copy.marker).Ok?
    ensures Reconcile(lib, None, None, policy)
         == Ok(Record(Marker(None, None, None), Content(None, None, None, None, [])))
    ensures Reconcile(lib, None, Some(copy), policy) == Ok(copy)
    ensures Reconcile(lib, Some(copy), None, policy)
         == if policy != NativeKeyring || copy == EMPTY then Ok(copy) else Err(NoKeyringRecord)
  {
  }

  /** Which copy is chosen when one of the two is versioned: no field of the other is in it. */
  lemma TwoCopies(lib: Library, file: Record, keyring: Record, policy: Policy)
    requires RecordOrder(lib, file.marker).Ok? && RecordOrder(lib, keyring.marker).Ok?
    requires !(file.marker == NO_MARKER && keyring.marker == NO_MARKER)
    ensures var r := Reconcile(lib, Some(file), Some(keyring), policy);
            if policy != NativeKeyring then
              if file.marker == NO_MARKER then
                r == Ok(if file.content.token.Some? || file.content.seed.Some? then file else keyring)
              else r == if file.marker == keyring.marker && file != keyring then Err(BackendsDisagree) else Ok(file)
            else if file.marker == NO_MARKER then r == Ok(keyring)
            else if keyring.marker == NO_MARKER then r == Err(LegacyKeyring)
            else
              r == if file.marker == keyring.marker && file != keyring.(content := keyring.content.(seed := None))
                   then Err(BackendsDisagree) else Ok(keyring)
  {
    if RecordOrder(lib, file.marker) == RecordOrder(lib, keyring.marker) {
      OrderIdentifies(lib, file.marker, keyring.marker);
    }
  }

  /** What is chosen from two legacy copies: a complete file, or all that either has where they do not differ. */
  lemma TwoLegacyCopies(lib: Library, file: Record, keyring: Record, policy: Policy)
    requires file.marker == NO_MARKER && keyring.marker == NO_MARKER
    ensures var r := Reconcile(lib, Some(file), Some(keyring), policy);
            var f, k := file.content, keyring.content;
            if policy != NativeKeyring && (f.token.Some? || f.seed.Some?) then r == Ok(file)
            else
              && (r.Ok? <==>
                    && (f.token.None? || k.token.None? || f.token == k.token)
                    && (f.hostId.None? || k.hostId.None? || f.hostId == k.hostId)
                    && (f.serverUrl.None? || k.serverUrl.None? || f.serverUrl == k.serverUrl)
                    && (f.seed.None? || k.seed.None? || f.seed == k.seed)
                    && MergePins(lib, f.pins, k.pins).Ok?)
              && (r.Ok? ==>
                    && r.value.marker == NO_MARKER
                    && r.value.content.token == (if f.token.Some? then f.token else k.token)
                    && r.value.content.hostId == (if f.hostId.Some? then f.hostId else k.hostId)
                    && r.value.content.serverUrl == (if f.serverUrl.Some? then f.serverUrl else k.serverUrl)
                    && r.value.content.seed == (if f.seed.Some? then f.seed else k.seed)
                    && r.value.content.pins == MergePins(lib, f.pins, k.pins).value)
  {
  }

  /** Load never mixes commits: with a versioned copy on either side the result is one whole copy. */
  lemma NeverMixed(lib: Library, file: Option<Record>, keyring: Option<Record>, policy: Policy)
    requires (file.Some? && Versioned(lib, file.value)) || (keyring.Some? && Versioned(lib, keyring.value))
    ensures var r := Reconcile(lib, file, keyring, policy);
            r.Ok? ==> Some(r.value) == file || Some(r.value) == keyring
  {
  }

  /**
   Where the file is the commit point, a versioned file record is what is loaded. It is refused exactly
   when the keyring copy has a malformed marker or has this record's identity and another content.
   */
  lemma FileDecides(lib: Library, file: Record, keyring: Option<Record>, policy: Policy)
    requires policy.CompleteFile() && Versioned(lib, file)
    ensures var r := Reconcile(lib, Some(file), keyring, policy);
            && (r.Ok? ==> r.value == file)
            && (r == Err(BackendsDisagree)
                <==> keyring.Some? && keyring.value.marker == file.marker && keyring.value != file)
            && (r.Err? && r != Err(BackendsDisagree) <==> keyring.Some? && RecordOrder(lib, keyring.value.marker).Err?)
  {
  }

  /** Without a version on either side the result holds all of the file copy; once merged, all of both. */
  lemma LegacyMergeKeeps(lib: Library, file: Record, keyring: Record, policy: Policy)
    requires Legacy(lib, file) && Legacy(lib, keyring) && Canonical(lib, file.content.pins)
    requires Reconcile(lib, Some(file), Some(keyring), policy).Ok?
    ensures var r := Reconcile(lib, Some(file), Some(keyring), policy).value;
            && Within(file.content, r.content)
            && (Within(keyring.content, r.content)
                || (r == file && policy.CompleteFile() && (file.content.token.Some? || file.content.seed.Some?)))
  {
    WithinItself(file.content);
    if !(policy.CompleteFile() && (file.content.token.Some? || file.content.seed.Some?)) {
      MergedHoldsBoth(lib, file.content, keyring.content);
    }
  }
}
