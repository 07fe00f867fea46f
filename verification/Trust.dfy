/**
 What may happen to the credentials between two commits (daemon/src/creds.rs, daemon/src/login.rs), and
 what every history of such changes keeps: where each pin comes from, the trust domain and the host's seed.
 */
module Trust {
  import opened Base
  import opened Pins
  import opened Adoption
  import opened Records
  import Endorsement

  datatype Op =
    | Login(token: string, hostId: Uuid, serverUrl: string, pin: Pin)
    | Rotate(token: string)
    | Adopt(account: string, proposed: seq<Proposal>)
    | Prune(live: set<string>)
    | SignOut
    | EnsureIdentity(seed: string)

  /** Pins belong to one host at one server origin. */
  predicate DomainAllows(lib: Library, c: Content, hostId: Uuid, serverUrl: string) {
    c.pins == []
    || (&& c.hostId == Some(hostId)
        && c.serverUrl.Some? && lib.origin(c.serverUrl.value).Some?
        && lib.origin(c.serverUrl.value) == lib.origin(serverUrl))
  }

  /** The host key a pass verifies against, read back from its wire form. */
  function HostKey(lib: Library, c: Content): (r: Option<PublicKey>)
  {
    match HostIdentity(lib, c)
    case Some(Some(key)) => KeyFromWire(lib, Endorsement.Encode(key))
    case _ => None
  }

  /** It is the key of the host's own seed. */
  lemma HostKeyIs(lib: Library, c: Content, key: PublicKey)
    requires c.seed.Some? && |c.seed.value| == 43 && lib.hostKey(c.seed.value) == Some(key)
    requires |key| == 32 && lib.onCurve(key)
    ensures HostKey(lib, c) == Some(key)
  {
    Endorsement.DecodeEncode(key);
  }

  function LoggedIn(lib: Library, c: Content, token: string, hostId: Uuid, serverUrl: string, pin: Pin)
    : (r: Option<Content>)
  {
    if !DomainAllows(lib, c, hostId, serverUrl) then None
    else
      match Merge(lib, c.pins, pin)
      case Err(_) => None
      case Ok((_, pins)) =>
        var next := c.(token := Some(token), hostId := Some(hostId), serverUrl := Some(serverUrl), pins := pins);
        if ValidContent(lib, next) then Some(next) else None
  }

  function Adopted(lib: Library, c: Content, account: string, proposed: seq<Proposal>): (r: Option<Content>)
  {
    match HostKey(lib, c)
    case None => None
    case Some(host) =>
      var (outcomes, pins) := AdoptAll(lib, account, host, Trusted(lib, c.pins), c.pins, proposed);
      if NewlyAdopted(outcomes) > 0 then Some(c.(pins := pins)) else None
  }

  /** The content an operation asks to save; none when it fails or has nothing to save. */
  function Apply(lib: Library, op: Op, c: Content): (r: Option<Content>)
  {
    match op
    case Login(token, hostId, serverUrl, pin) => LoggedIn(lib, c, token, hostId, serverUrl, pin)
    case Rotate(token) =>
      if token == [] || |token| > MAX_ACCESS_TOKEN_BYTES || c.token == Some(token) then None
      else Some(c.(token := Some(token)))
    case Adopt(account, proposed) => Adopted(lib, c, account, proposed)
    case Prune(live) =>
      if |Retained(c.pins, live)| == |c.pins| then None else Some(c.(pins := Retained(c.pins, live)))
    case SignOut => Some(c.(token := None))
    case EnsureIdentity(seed) => Some(if c.seed.None? then c.(seed := Some(seed)) else c)
  }

  /** Every operation keeps the list canonical, whatever the save would have checked. */
  lemma ApplyKeepsCanonical(lib: Library, op: Op, c: Content)
    requires Canonical(lib, c.pins) && Apply(lib, op, c).Some?
    ensures Canonical(lib, Apply(lib, op, c).value.pins)
  {
    match op
    case Login(_, _, _, pin) => MergeCanonical(lib, c.pins, pin);
    case Adopt(account, proposed) =>
      AdoptAllSound(lib, account, HostKey(lib, c).value, Trusted(lib, c.pins), c.pins, proposed);
    case Prune(live) => RetainedCanonical(lib, c.pins, live);
    case _ =>
  }

  // ---- What an operation does, field by field --------------------------------------------------

  /**
   A login: the record then holds the login's token, host and server, its pin, and the seed it had. It succeeds
   exactly when there are no pins yet or they belong to that host and origin, the pin can be merged, and the
   record it would make is valid.
   */
  lemma LoginEffect(lib: Library, c: Content, token: string, hostId: Uuid, serverUrl: string, pin: Pin)
    ensures var r := Apply(lib, Login(token, hostId, serverUrl, pin), c);
            && (r.Some? <==>
                  && (c.pins != [] ==>
                        && c.hostId == Some(hostId) && c.serverUrl.Some? && lib.origin(c.serverUrl.value).Some?
                        && lib.origin(c.serverUrl.value) == lib.origin(serverUrl))
                  && Merge(lib, c.pins, pin).Ok?
                  && ValidContent(lib, Content(Some(token), Some(hostId), Some(serverUrl), c.seed,
                                               Merge(lib, c.pins, pin).value.1)))
            && (r.Some? ==>
                  && r.value.token == Some(token) && r.value.hostId == Some(hostId)
                  && r.value.serverUrl == Some(serverUrl) && r.value.seed == c.seed
                  && Pinned(r.value.pins, pin.device, pin.key)
                  && (forall p :: p in r.value.pins ==> p in c.pins || p == pin)
                  && forall p :: p in c.pins && p.device != pin.device ==> p in r.value.pins)
  {
    if Merge(lib, c.pins, pin).Ok? {
      LoginPins(lib, c.pins, pin);
    }
  }

  lemma LoginPins(lib: Library, pins: seq<Pin>, pin: Pin)
    requires Merge(lib, pins, pin).Ok?
    ensures var r := Merge(lib, pins, pin).value.1;
            && Pinned(r, pin.device, pin.key)
            && (forall p :: p in r ==> p in pins || p == pin)
            && forall p :: p in pins && p.device != pin.device ==> p in r
  {
    MergeKeeps(lib, pins, pin);
    MergeHolds(lib, pins, pin);
    var r := Merge(lib, pins, pin).value.1;
    var q :| q in r && q.SameIdentity(pin) && (pin.proof.Some? ==> q.proof.Some?);
  }

  /** A rotation: a new token of acceptable length, and nothing else. */
  lemma RotateEffect(lib: Library, c: Content, token: string)
    ensures var r := Apply(lib, Rotate(token), c);
            && (r.Some? <==> 1 <= |token| <= 12288 && c.token != Some(token))
            && (r.Some? ==> r.value == Content(Some(token), c.hostId, c.serverUrl, c.seed, c.pins))
  {
  }

  /** Signing out: no token, everything else kept. */
  lemma SignOutEffect(lib: Library, c: Content)
    ensures Apply(lib, SignOut, c) == Some(Content(None, c.hostId, c.serverUrl, c.seed, c.pins))
  {
  }

  /** Making an identity: a seed where there was none, and nothing else. */
  lemma IdentityEffect(lib: Library, c: Content, seed: string)
    ensures Apply(lib, EnsureIdentity(seed), c)
         == Some(Content(c.token, c.hostId, c.serverUrl, if c.seed.None? then Some(seed) else c.seed, c.pins))
  {
  }

  /** Pruning: exactly the listed pins stay, each as it was, and nothing else changes; it saves if a pin goes. */
  lemma PruneEffect(lib: Library, c: Content, live: set<string>)
    ensures var r := Apply(lib, Prune(live), c);
            && (r.Some? <==> exists p :: p in c.pins && p.device !in live)
            && (r.Some? ==>
                  && r.value.token == c.token && r.value.hostId == c.hostId && r.value.serverUrl == c.serverUrl
                  && r.value.seed == c.seed
                  && forall p :: p in r.value.pins <==> p in c.pins && p.device in live)
  {
    RetainedMembers(c.pins, live);
    if forall p :: p in c.pins ==> p.device in live {
      AllRetained(c.pins, live);
    }
  }

  lemma {:induction false} AllRetained(pins: seq<Pin>, live: set<string>)
    requires forall p :: p in pins ==> p.device in live
    ensures Retained(pins, live) == pins
  {
    if pins != [] {
      var n := |pins| - 1;
      AllRetained(pins[..n], live);
      assert pins == pins[..n] + [pins[n]];
    }
  }

  /** Adopting: only pins are added, each endorsed by a pin held before; it saves if a pin comes. */
  lemma AdoptEffect(lib: Library, c: Content, account: string, proposed: seq<Proposal>)
    requires Canonical(lib, c.pins)
    ensures var r := Apply(lib, Adopt(account, proposed), c);
            && (r.Some? <==>
                  && HostKey(lib, c).Some?
                  && AdoptAll(lib, account, HostKey(lib, c).value, Trusted(lib, c.pins), c.pins, proposed).1 != c.pins)
            && (r.Some? ==>
                  && r.value.token == c.token && r.value.hostId == c.hostId && r.value.serverUrl == c.serverUrl
                  && r.value.seed == c.seed
                  && r.value.pins
                     == AdoptAll(lib, account, HostKey(lib, c).value, Trusted(lib, c.pins), c.pins, proposed).1
                  && |r.value.pins| > |c.pins| && (forall p :: p in c.pins ==> p in r.value.pins)
                  && forall p :: p in r.value.pins && p !in c.pins ==>
                       Proposed(lib, c, account, proposed, p.device, p.key))
  {
    if HostKey(lib, c).Some? {
      AdoptAllSound(lib, account, HostKey(lib, c).value, Trusted(lib, c.pins), c.pins, proposed);
    }
    if Adopted(lib, c, account, proposed).Some? {
      forall p | p in Adopted(lib, c, account, proposed).value.pins && p !in c.pins
        ensures Proposed(lib, c, account, proposed, p.device, p.key)
      {
        BroughtByAdoption(lib, c, account, proposed, p);
      }
    }
  }

  /** The token after a sequence of operations: that of the last login or rotation, and none after a sign-out. */
  function LastToken(first: Option<string>, ops: seq<Op>): (r: Option<string>)
  {
    if ops == [] then first
    else
      match ops[|ops| - 1]
      case Login(token, _, _, _) => Some(token)
      case Rotate(token) => Some(token)
      case SignOut => None
      case _ => LastToken(first, ops[..|ops| - 1])
  }

  lemma {:induction false} TokenOfHistory(lib: Library, contents: seq<Content>, ops: seq<Op>, i: nat)
    requires History(lib, contents, ops) && i < |contents|
    ensures contents[i].token == LastToken(contents[0].token, ops[..i])
  {
    if i > 0 {
      var op, c := ops[i - 1], contents[i - 1];
      TokenOfHistory(lib, contents, ops, i - 1);
      assert ops[..i][..i - 1] == ops[..i - 1];
      assert Makes(lib, contents, ops, i - 1);
      TokenStep(lib, op, c);
    }
  }

  lemma TokenStep(lib: Library, op: Op, c: Content)
    requires Apply(lib, op, c).Some?
    ensures Apply(lib, op, c).value.token
         == match op
            case Login(token, _, _, _) => Some(token)
            case Rotate(token) => Some(token)
            case SignOut => None
            case _ => c.token
  {
  }

  // ---- Histories -------------------------------------------------------------------------------

  ghost predicate Makes(lib: Library, contents: seq<Content>, ops: seq<Op>, i: int)
    requires |contents| == |ops| + 1 && 0 <= i < |ops|
  {
    Apply(lib, ops[i], contents[i]) == Some(contents[i + 1])
  }

  /** Contents, each made from the one before by one operation. */
  ghost predicate History(lib: Library, contents: seq<Content>, ops: seq<Op>) {
    && |contents| == |ops| + 1
    && Canonical(lib, contents[0].pins)
    && forall i :: 0 <= i < |ops| ==> Makes(lib, contents, ops, i)
  }

  lemma {:induction false} AlwaysCanonical(lib: Library, contents: seq<Content>, ops: seq<Op>, i: nat)
    requires History(lib, contents, ops) && i < |contents|
    ensures Canonical(lib, contents[i].pins)
  {
    if i > 0 {
      AlwaysCanonical(lib, contents, ops, i - 1);
      assert Makes(lib, contents, ops, i - 1);
      ApplyKeepsCanonical(lib, ops[i - 1], contents[i - 1]);
    }
  }

  function Origin(lib: Library, c: Content): (r: Option<string>) {
    if c.serverUrl.None? then None else lib.origin(c.serverUrl.value)
  }

  lemma ApplyKeepsDomain(lib: Library, op: Op, c: Content)
    requires Apply(lib, op, c).Some?
    ensures var next := Apply(lib, op, c).value;
            && (c.pins != [] ==> next.hostId == c.hostId && Origin(lib, next) == Origin(lib, c))
            && (c.seed.Some? ==> next.seed == c.seed)
  {
  }

  lemma StepKeepsDomain(lib: Library, contents: seq<Content>, ops: seq<Op>, k: nat)
    requires History(lib, contents, ops) && k < |ops|
    ensures contents[k].pins != [] ==>
              contents[k + 1].hostId == contents[k].hostId && Origin(lib, contents[k + 1]) == Origin(lib, contents[k])
    ensures contents[k].seed.Some? ==> contents[k + 1].seed == contents[k].seed
  {
    assert Makes(lib, contents, ops, k);
    ApplyKeepsDomain(lib, ops[k], contents[k]);
  }

  /** While there are pins, the host and the server origin they belong to do not change. */
  lemma {:induction false} DomainIsStable(lib: Library, contents: seq<Content>, ops: seq<Op>, i: nat, j: nat)
    requires History(lib, contents, ops) && i <= j < |contents|
    requires forall k :: i <= k < j ==> contents[k].pins != []
    ensures contents[j].hostId == contents[i].hostId && Origin(lib, contents[j]) == Origin(lib, contents[i])
  {
    if i < j {
      DomainIsStable(lib, contents, ops, i, j - 1);
      StepKeepsDomain(lib, contents, ops, j - 1);
    }
  }

  /** Once set, the host's seed never changes. */
  lemma {:induction false} SeedIsStable(lib: Library, contents: seq<Content>, ops: seq<Op>, i: nat, j: nat)
    requires History(lib, contents, ops) && i <= j < |contents| && contents[i].seed.Some?
    ensures contents[j].seed == contents[i].seed
  {
    if i < j {
      SeedIsStable(lib, contents, ops, i, j - 1);
      StepKeepsDomain(lib, contents, ops, j - 1);
    }
  }

  // ---- Where a pin comes from -------------------------------------------------------------------

  /**
   How a pin was admitted: it was there at the start, a login brought it, or a proposal did that another
   pin endorsed, and then how that pin was admitted.
   */
  datatype Source =
    | Founding
    | ByLogin(at: nat)
    | ByEndorsement(at: nat, proposal: Proposal, endorser: Pin, back: Source)

  ghost predicate PinnedThroughout(contents: seq<Content>, from: nat, to: nat, device: string, key: string)
    requires to < |contents|
  {
    from <= to && forall k :: from <= k <= to ==> Pinned(contents[k].pins, device, key)
  }

  /** The proposal carries this pin's endorsement, verified for this host against the pins of this content. */
  ghost predicate Endorses(lib: Library, c: Content, account: string, endorser: Pin, proposal: Proposal) {
    && endorser in c.pins
    && proposal.endorser == Some(endorser.key)
    && HostKey(lib, c).Some?
    && Endorsed(lib, account, HostKey(lib, c).value, Trusted(lib, c.pins), proposal)
  }

  /** Some proposal for this device and key is endorsed by a pin of this content. */
  ghost predicate Proposed(lib: Library, c: Content, account: string, proposed: seq<Proposal>,
                           device: string, key: string) {
    exists proposal, endorser ::
      && proposal in proposed && proposal.device == device && proposal.key == key
      && Endorses(lib, c, account, endorser, proposal)
  }

  /** The source's own step: how and when this device and key came in, and that they stayed since. */
  ghost predicate Admitted(lib: Library, contents: seq<Content>, ops: seq<Op>, i: nat, device: string, key: string,
                           source: Source)
    requires |contents| == |ops| + 1 && i < |contents|
  {
    match source
    case Founding => PinnedThroughout(contents, 0, i, device, key)
    case ByLogin(at) =>
      && at < i && PinnedThroughout(contents, at + 1, i, device, key)
      && ops[at].Login? && ops[at].pin.device == device && ops[at].pin.key == key
    case ByEndorsement(at, proposal, endorser, back) =>
      && at < i && PinnedThroughout(contents, at + 1, i, device, key)
      && ops[at].Adopt? && proposal in ops[at].proposed && proposal.device == device && proposal.key == key
      && Endorses(lib, contents[at], ops[at].account, endorser, proposal)
  }

  ghost predicate Justified(lib: Library, contents: seq<Content>, ops: seq<Op>, i: nat, device: string, key: string,
                            source: Source)
    requires |contents| == |ops| + 1 && i < |contents|
    decreases source
  {
    && Admitted(lib, contents, ops, i, device, key, source)
    && (source.ByEndorsement? ==>
          Justified(lib, contents, ops, source.at, source.endorser.device, source.endorser.key, source.back))
  }

  lemma {:induction false} StaysJustified(lib: Library, contents: seq<Content>, ops: seq<Op>, i: nat,
                                          device: string, key: string, source: Source)
    requires |contents| == |ops| + 1 && i + 1 < |contents|
    requires Justified(lib, contents, ops, i, device, key, source) && Pinned(contents[i + 1].pins, device, key)
    ensures Justified(lib, contents, ops, i + 1, device, key, source)
  {
    StaysAdmitted(lib, contents, ops, i, device, key, source);
  }

  lemma StaysAdmitted(lib: Library, contents: seq<Content>, ops: seq<Op>, i: nat, device: string, key: string,
                      source: Source)
    requires |contents| == |ops| + 1 && i + 1 < |contents|
    requires Admitted(lib, contents, ops, i, device, key, source) && Pinned(contents[i + 1].pins, device, key)
    ensures Admitted(lib, contents, ops, i + 1, device, key, source)
  {
    var from := if source.Founding? then 0 else source.at + 1;
    assert PinnedThroughout(contents, from, i, device, key);
    PinnedLonger(contents, from, i, device, key);
  }

  lemma PinnedLonger(contents: seq<Content>, from: nat, to: nat, device: string, key: string)
    requires to + 1 < |contents| && PinnedThroughout(contents, from, to, device, key)
    requires Pinned(contents[to + 1].pins, device, key)
    ensures PinnedThroughout(contents, from, to + 1, device, key)
  {
    forall k | from <= k <= to + 1 ensures Pinned(contents[k].pins, device, key) {
      assert k <= to || k == to + 1;
    }
  }

  /** A device and key that one operation brings come with its login or with an endorsement of a pin held before. */
  lemma BroughtBy(lib: Library, op: Op, c: Content, p: Pin)
    requires Canonical(lib, c.pins) && Apply(lib, op, c).Some?
    requires p in Apply(lib, op, c).value.pins && !Pinned(c.pins, p.device, p.key)
    ensures (op.Login? && op.pin == p)
         || (op.Adopt? && Proposed(lib, c, op.account, op.proposed, p.device, p.key))
  {
    match op
    case Login(_, _, _, pin) =>
      MergeHolds(lib, c.pins, pin);
    case Adopt(account, proposed) =>
      BroughtByAdoption(lib, c, account, proposed, p);
    case Prune(live) =>
      RetainedMembers(c.pins, live);
    case _ =>
  }

  lemma BroughtByAdoption(lib: Library, c: Content, account: string, proposed: seq<Proposal>, p: Pin)
    requires Canonical(lib, c.pins) && Adopted(lib, c, account, proposed).Some?
    requires p in Adopted(lib, c, account, proposed).value.pins && p !in c.pins
    ensures Proposed(lib, c, account, proposed, p.device, p.key)
  {
    var host, trusted := HostKey(lib, c).value, Trusted(lib, c.pins);
    AdoptAllSound(lib, account, host, trusted, c.pins, proposed);
    assert Vouched(lib, account, host, trusted, proposed, p);
    var proposal :| proposal in proposed && Endorsed(lib, account, host, trusted, proposal)
                 && PinOf(lib, proposal) == Some(p);
    EndorserIsPinned(lib, c, account, proposal);
  }

  lemma EndorserIsPinned(lib: Library, c: Content, account: string, proposal: Proposal)
    requires HostKey(lib, c).Some? && Endorsed(lib, account, HostKey(lib, c).value, Trusted(lib, c.pins), proposal)
    ensures exists endorser :: Endorses(lib, c, account, endorser, proposal)
  {
    var t := Transcript(lib, account, HostKey(lib, c).value, proposal).value;
    assert t.endorserKey in Trusted(lib, c.pins);
    var e :| e in c.pins && KeyFromWire(lib, e.key) == Some(t.endorserKey);
    assert Endorses(lib, c, account, e, proposal);
  }

  ghost predicate HasSource(lib: Library, contents: seq<Content>, ops: seq<Op>, i: nat, device: string, key: string)
    requires |contents| == |ops| + 1 && i < |contents|
  {
    exists source :: Justified(lib, contents, ops, i, device, key, source)
  }

  /** Every pin of a history has a source: endorsers followed back in time reach a login or a founding pin. */
  lemma {:induction false} EveryPinIsJustified(lib: Library, contents: seq<Content>, ops: seq<Op>, i: nat, p: Pin)
    requires History(lib, contents, ops) && i < |contents| && p in contents[i].pins
    ensures HasSource(lib, contents, ops, i, p.device, p.key)
    decreases i
  {
    if i == 0 {
      PinnedNow(contents, i, p);
      assert Justified(lib, contents, ops, i, p.device, p.key, Founding);
    } else if Pinned(contents[i - 1].pins, p.device, p.key) {
      var q :| q in contents[i - 1].pins && q.device == p.device && q.key == p.key;
      EveryPinIsJustified(lib, contents, ops, i - 1, q);
      CarriedOver(lib, contents, ops, i, p);
    } else {
      forall e | e in contents[i - 1].pins ensures HasSource(lib, contents, ops, i - 1, e.device, e.key) {
        EveryPinIsJustified(lib, contents, ops, i - 1, e);
      }
      BroughtAt(lib, contents, ops, i, p);
      SourceOfNew(lib, contents, ops, i, p);
    }
  }

  lemma CarriedOver(lib: Library, contents: seq<Content>, ops: seq<Op>, i: nat, p: Pin)
    requires |contents| == |ops| + 1 && 0 < i < |contents| && p in contents[i].pins
    requires HasSource(lib, contents, ops, i - 1, p.device, p.key)
    ensures HasSource(lib, contents, ops, i, p.device, p.key)
  {
    var source :| Justified(lib, contents, ops, i - 1, p.device, p.key, source);
    StaysJustified(lib, contents, ops, i - 1, p.device, p.key, source);
  }

  lemma SourceOfNew(lib: Library, contents: seq<Content>, ops: seq<Op>, i: nat, p: Pin)
    requires |contents| == |ops| + 1 && 0 < i < |contents| && p in contents[i].pins
    requires || (ops[i - 1].Login? && ops[i - 1].pin == p)
             || (ops[i - 1].Adopt?
                 && Proposed(lib, contents[i - 1], ops[i - 1].account, ops[i - 1].proposed, p.device, p.key))
    requires forall e :: e in contents[i - 1].pins ==> HasSource(lib, contents, ops, i - 1, e.device, e.key)
    ensures HasSource(lib, contents, ops, i, p.device, p.key)
  {
    var op := ops[i - 1];
    if op.Login? {
      PinnedNow(contents, i, p);
      assert Justified(lib, contents, ops, i, p.device, p.key, ByLogin(i - 1));
    } else {
      var proposal, endorser :| proposal in op.proposed && proposal.device == p.device && proposal.key == p.key
                             && Endorses(lib, contents[i - 1], op.account, endorser, proposal);
      var back :| Justified(lib, contents, ops, i - 1, endorser.device, endorser.key, back);
      JustifiedByEndorser(lib, contents, ops, i, p, proposal, endorser, back);
    }
  }

  lemma BroughtAt(lib: Library, contents: seq<Content>, ops: seq<Op>, i: nat, p: Pin)
    requires History(lib, contents, ops) && 0 < i < |contents|
    requires p in contents[i].pins && !Pinned(contents[i - 1].pins, p.device, p.key)
    ensures var op := ops[i - 1];
            || (op.Login? && op.pin == p)
            || (op.Adopt? && Proposed(lib, contents[i - 1], op.account, op.proposed, p.device, p.key))
  {
    assert Makes(lib, contents, ops, i - 1);
    AlwaysCanonical(lib, contents, ops, i - 1);
    BroughtBy(lib, ops[i - 1], contents[i - 1], p);
  }

  lemma {:induction false} JustifiedByEndorser(lib: Library, contents: seq<Content>, ops: seq<Op>, i: nat, p: Pin,
                                               proposal: Proposal, endorser: Pin, back: Source)
    requires |contents| == |ops| + 1 && 0 < i < |contents| && p in contents[i].pins
    requires ops[i - 1].Adopt? && proposal in ops[i - 1].proposed
    requires proposal.device == p.device && proposal.key == p.key
    requires Endorses(lib, contents[i - 1], ops[i - 1].account, endorser, proposal)
    requires Justified(lib, contents, ops, i - 1, endorser.device, endorser.key, back)
    ensures Justified(lib, contents, ops, i, p.device, p.key, ByEndorsement(i - 1, proposal, endorser, back))
  {
    AdmittedByEndorser(lib, contents, ops, i, p, proposal, endorser, back);
  }

  lemma AdmittedByEndorser(lib: Library, contents: seq<Content>, ops: seq<Op>, i: nat, p: Pin,
                           proposal: Proposal, endorser: Pin, back: Source)
    requires |contents| == |ops| + 1 && 0 < i < |contents| && p in contents[i].pins
    requires ops[i - 1].Adopt? && proposal in ops[i - 1].proposed
    requires proposal.device == p.device && proposal.key == p.key
    requires Endorses(lib, contents[i - 1], ops[i - 1].account, endorser, proposal)
    ensures Admitted(lib, contents, ops, i, p.device, p.key, ByEndorsement(i - 1, proposal, endorser, back))
  {
    PinnedNow(contents, i, p);
  }

  lemma PinnedNow(contents: seq<Content>, i: nat, p: Pin)
    requires i < |contents| && p in contents[i].pins
    ensures PinnedThroughout(contents, i, i, p.device, p.key)
  {
  }

  function Root(source: Source): (r: Source)
    ensures !r.ByEndorsement?
  {
    if source.ByEndorsement? then Root(source.back) else source
  }

  /** The device and key at the root of a source. */
  function RootIdentity(device: string, key: string, source: Source): (r: (string, string))
    decreases source
  {
    if source.ByEndorsement? then RootIdentity(source.endorser.device, source.endorser.key, source.back)
    else (device, key)
  }

  /** The chain of endorsements begins at a login that brought the very pin at its root. */
  ghost predicate BeginsAtLogin(ops: seq<Op>, i: nat, device: string, key: string, source: Source) {
    && Root(source).ByLogin? && Root(source).at < i && Root(source).at < |ops|
    && ops[Root(source).at].Login?
    && (ops[Root(source).at].pin.device, ops[Root(source).at].pin.key) == RootIdentity(device, key, source)
  }

  /** In a history that starts without pins, every chain of endorsements begins at a login's own pin. */
  lemma {:induction false} TrustBeginsAtLogin(lib: Library, contents: seq<Content>, ops: seq<Op>, i: nat,
                                              device: string, key: string, source: Source)
    requires |contents| == |ops| + 1 && i < |contents| && contents[0].pins == []
    requires Justified(lib, contents, ops, i, device, key, source)
    ensures BeginsAtLogin(ops, i, device, key, source)
    decreases source
  {
    if source.ByEndorsement? {
      TrustBeginsAtLogin(lib, contents, ops, source.at, source.endorser.device, source.endorser.key, source.back);
    }
  }

  /** An endorser that is not pinned when a pass begins vouches for nothing in it, adopted in it or not. */
  lemma NoVouchingWithinABatch(lib: Library, c: Content, account: string, proposed: seq<Proposal>, p: Pin)
    requires Canonical(lib, c.pins) && Adopted(lib, c, account, proposed).Some? && p !in c.pins
    requires forall proposal, e :: proposal in proposed && proposal.device == p.device && e in c.pins
               ==> proposal.endorser != Some(e.key)
    ensures p !in Adopted(lib, c, account, proposed).value.pins
  {
    var host, trusted := HostKey(lib, c).value, Trusted(lib, c.pins);
    AdoptAllSound(lib, account, host, trusted, c.pins, proposed);
    forall proposal | proposal in proposed && PinOf(lib, proposal) == Some(p)
      ensures !Endorsed(lib, account, host, trusted, proposal)
    {
      if Endorsed(lib, account, host, trusted, proposal) {
        EndorserIsPinned(lib, c, account, proposal);
      }
    }
  }
}
