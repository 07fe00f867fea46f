# Verification of the spawn daemon's hard core

A Dafny model of the parts of the daemon and its test tooling where a mistake would be silent: the credential
store, the terminal activity classifiers, the per-window Codex home, the UDP fault injector, the endorsement
transcripts and the launch limiter. `dafny verify dfyconfig.toml` checks all of it.

| files | component |
|---|---|
| `Pins`, `Adoption` | the canonical list of pinned browsers; merging, pruning and adopting endorsed pins |
| `Records`, `Migration` | the versioned credential record, the choice between file and keyring, the legacy keyring move |
| `CredentialStore`, `StoreRuns` | load and compare-and-swap save; every run of any number of processes |
| `Trust` | operations on credentials; provenance of pins, trust domain and seed over whole histories |
| `Endorsement` | transcripts, base64url and signature wire forms, verification |
| `InputActivity`, `Utf8`, `OutputActivity` | the two streaming classifiers against whole-stream descriptions |
| `ChaosQueue`, `ChaosProxy`, `ChaosRuns`, `ChaosAddresses`, `ChaosProgress`, `ChaosFates`, `ChaosService`, `Framing` | the UDP fault injector, its steps, its runs, where and that it sends, what each fault, command and tick does, the object itself, its line reader |
| `CodexConfig`, `CodexLinks`, `CodexStarts` | rewriting the user's configuration; linking and mirroring the user's state; whole starts |
| `LaunchLimiter` | the launch limiter |

How the model is built:

* Code that computes on values is a function; code that updates fields is a class whose methods are proved equal to
  a function of the old state, and the lemmas are about that function. Runs are sequences of events over states.
* Library calls (UUID parsing, the Ed25519 curve check and signature verification, SHA-256, URL origins, serialized
  sizes) are function-valued parameters of which nothing is assumed. UUID text and key text are canonical because the
  code re-encodes and compares; that is in the model and is what makes identities injective.
* A new record id is an event parameter that must not have been handed out before. Clock readings, random draws, send
  results and every backend failure are event parameters too. A failing call may fail before or after it took effect.

What turned out not to hold as one might expect, each with its exact condition:

* A store linked with hard links whose source is itself a symbolic link is linked again on every start, and a
  directory store whose source is reached through the window's own name becomes a loop: `CodexLinks.Unsettled` is
  exactly when a second start does not answer Current.
* A symbolic store link answers Linked, and Current ever after, even where it opens nothing: it leads where the user's
  name led exactly when that was not a loop and was not reached through the window's own name (`CodexLinks.Opened`),
  for a source that exists and for one still to be created.
* A symbolic mirror of a user's file opens as that file exactly when it was not reached through the window's own name.
* Without any failing call a hard link is not made exactly when its source cannot be prepared or is reached through
  the window's own link, which is removed on the way (`CodexLinks.ThroughLink`).
* A table key spelled `[]` is rewritten although the key table means array elements by it; positions reached are the
  intended ones exactly when no such key is on the way.
* A moved keyring entry can be read back exactly when it is not a versioned file projection moved over a legacy
  global entry under the native-keyring policy (`Migration.MovesProjection`).
* With no credential file at all, a first save that reported failure is found by a later load exactly when the file
  was replaced all the same, or the mirror was written and that load reads it.

## Model

| member | source | states |
|---|---|---|
| `StoreRuns.NoLostUpdate` | daemon/src/creds.rs:1335-1432 | after every run of loads and commits by any number of processes, with every backend call failing before or after its effect, the file records are one chain: each is one operation applied to exactly its predecessor, one generation higher, under an id of its own |
| `StoreRuns.StaleWritesNothing` | daemon/src/creds.rs:1361-1392 | in every reachable state a commit from a record that is not the file record changes neither file nor memory, and the keyring at most by the migration a load may make |
| `StoreRuns.MemoryFollowsTheFile` | daemon/src/creds.rs:1394-1402 | a commit either leaves every process's record as it was, or gives the committer exactly the record now in the file |
| `StoreRuns.LoadAfterAnyRun` | daemon/src/creds.rs:1211-1288 | in every reachable state a load that succeeds gives the file record whatever a failed save left in the keyring, "disagree within one record identity" cannot occur, and an unavailable, disabled or decodable keyring never makes it fail |
| `StoreRuns.LoadFailsOnlyOnMigration` | daemon/src/creds.rs:1787-1849 | from a scoped entry that is absent or decodes, no run makes a load fail but on an existing global entry, with no scoped one yet, in a process that may migrate |
| `StoreRuns.CommitSound` | daemon/src/creds.rs:1361-1432 | the invariant behind the chain is kept by every commit, stale or current, whatever fails |
| `StoreRuns.TrustOverRuns` | daemon/src/creds.rs:466-593 | over every run of the store, each pin in the file has a source in the committed operations, and the host seed is the first one |
| `StoreRuns.RunTrustBeginsAtLogin` | daemon/src/creds.rs:466-593 | over every run from a file without pins, each pin's chain of endorsers begins at a committed login that brought the very device and key at its root |
| `StoreRuns.DomainOverRuns` | daemon/src/creds.rs:723-746 | over every run, host id and server origin are equal at any two commits with pins throughout between them |
| `StoreRuns.TokenOverRuns` | daemon/src/creds.rs:375-387 | over every run, the token in the file is that of the last committed login or rotation, and none once a sign-out came later |
| `CredentialStore.LoadGivesTheFile` | daemon/src/creds.rs:1211-1288 | from a versioned file, load gives the file record; it fails exactly when the keyring is used and its entry cannot be decoded or moved |
| `CredentialStore.SaveOutcome` | daemon/src/creds.rs:1361-1402 | a save fails and writes nothing of its candidate, or file and candidate had the expected revision and the next generation was written |
| `CredentialStore.CurrentSaveWrites` | daemon/src/creds.rs:1404-1432 | a save built from the file record with a valid next generation does go through, to both backends as they allow |
| `CredentialStore.FailedFirstSaveSurfaces` | daemon/src/creds.rs:1404-1432 | with neither file nor entry, for all conditions of the save and of a later load: exactly when a save that reported failure is found again |
| `CredentialStore.FileIsRead` | daemon/src/creds.rs:1972-1989 | the file is read exactly when absent or valid, a versioned one with a seed |
| `CredentialStore.LoadWithoutEntries` | daemon/src/creds.rs:894-909 | with no keyring entry a readable file, versioned or from before generations, is what is loaded under every condition |
| `CredentialStore.LoadNeedsTheFile` | daemon/src/creds.rs:1211-1217 | a file that cannot be read fails the load whatever the keyring holds |
| `CredentialStore.PreparedIff` | daemon/src/creds.rs:1404-1418 | a candidate is prepared exactly when a generation is left, its content is valid with a seed, and both forms fit in 16384 bytes |
| `CredentialStore.FileAndKeyring.Load` | daemon/src/creds.rs:1211-1288 | the step-by-step load is the load of the run theorems |
| `CredentialStore.FileAndKeyring.WriteBoth` | daemon/src/creds.rs:1418-1425 | mirror first, its failure ignored; then the file, whose failure is reported and may come after the replacement |
| `CredentialStore.FileAndKeyring.Save` | daemon/src/creds.rs:1361-1402 | the step-by-step compare-and-swap is the save of the run theorems |
| `CredentialStore.Client.Commit` | daemon/src/creds.rs:663-709 | any failure of the update or of the save leaves the record in memory as it was; success takes over the committed record |
| `Records.OrderIdentifies` | daemon/src/creds.rs:842-864 | equal record orders come only from equal markers |
| `Records.RevisionIdentifies` | daemon/src/creds.rs:866-882 | equal revisions mean equal markers, and for legacy records equal records |
| `Records.AdvancedOrder` | daemon/src/creds.rs:830-840 | advancing gives the next generation (1 for a legacy record) under the new id with the content unchanged; it fails exactly for a malformed marker and at the largest generation |
| `Records.MarkerForms` | daemon/src/creds.rs:842-864 | a marker is absent, or complete with version 1, a generation from 1 and a canonical id; anything else is refused |
| `Records.ValidContentRules` | daemon/src/creds.rs:2004-2054 | a content is valid exactly by these bounds, a decodable seed, canonical pins whose proofs verify for the host key, and a trust domain |
| `Records.NeverMixed` | daemon/src/creds.rs:894-967 | with a versioned copy on either side, for all three policies, the result is one whole copy or a failure |
| `Records.OneCopy` | daemon/src/creds.rs:905-916 | with one copy, or none, what is chosen under each policy |
| `Records.TwoCopies` | daemon/src/creds.rs:918-965 | with two copies and a version on either side, which whole copy is chosen or refused under each policy |
| `Records.TwoLegacyCopies` | daemon/src/creds.rs:1000-1040 | from two legacy copies a complete file, or field by field what either has, exactly where they do not differ |
| `Records.FileDecides` | daemon/src/creds.rs:981-997 | where the file is the commit point a versioned file is loaded; it is refused exactly for a malformed keyring marker or the same identity with another content |
| `Records.MergeField` | daemon/src/creds.rs:1161-1174 | a legacy field merges exactly when the sides do not differ, to what either has |
| `Records.MergePinsKeeps` | daemon/src/creds.rs:1028-1030 | merging pins keeps both lists' identities and proofs, stays canonical and invents no pin |
| `Records.LegacyMergeKeeps` | daemon/src/creds.rs:1000-1040 | the legacy merge holds all of the file copy, and all of the keyring copy unless the file copy is complete and preferred |
| `Migration.MigrationLosesNothing` | daemon/src/creds.rs:1047-1158 | the moved record holds every field, pin and proof of the global record and agrees with the file on every field the file has |
| `Migration.MigrationSucceedsIff` | daemon/src/creds.rs:1047-1158 | when the global record may be moved and what is moved, for every combination of versions and policy |
| `Migration.DecodedEntry` | daemon/src/creds.rs:1852-1879 | a bundle decodes to its record exactly when it fits and is valid, a bare text to a record with that token alone |
| `Migration.MoveIsCrashSafe` | daemon/src/creds.rs:1827-1848 | in every state the keyring passes through, the global entry is still there or the scoped one holds all of it |
| `Migration.RetryCompletes` | daemon/src/creds.rs:1787-1849 | wherever the move was interrupted, the next undisturbed read gives the very record that was being moved, exactly unless the unreadable projection was already written |
| `Migration.ConflictTouchesNothing` | daemon/src/creds.rs:1823-1833 | a field on which file and global record differ, a device pinned to two keys or a key pinned to two devices leaves both entries untouched and is fatal |
| `Migration.ScopedShieldsGlobal` | daemon/src/creds.rs:1800-1811 | once a scoped entry exists the global one is neither read nor changed |
| `Migration.VersionedFileIsMoved` | daemon/src/creds.rs:1056-1094 | with a versioned complete file, what is moved is that record |
| `Migration.MigratedIsReadable` | daemon/src/creds.rs:1852-1879 | for all three policies, what is moved decodes again exactly when it is not a seedless versioned projection over a legacy record under the native policy |
| `Migration.NativeProjectionIsUnreadable` | daemon/src/creds.rs:1086-1094 | the arrangements in which that projection is moved |
| `Migration.OsKeyring.ReadRecord` | daemon/src/creds.rs:1787-1849 | the step-by-step read and move passes through exactly the states of the crash-safety theorem |
| `Migration.OsKeyring.Set` | daemon/src/creds.rs:1893-1912 | writes the scoped entry, refuses an oversize record, may report failure after the write |
| `Migration.OsKeyring.DeleteGlobal` | daemon/src/creds.rs:1949-1956 | removes the global entry, may report failure after the removal |
| `Pins.ValidatePins` | daemon/src/creds.rs:2110-2131 | the one-pass check accepts exactly the lists that are valid, strictly sorted by device, one device per key and at most 32 long |
| `Pins.ValidPinRules` | daemon/src/creds.rs:304-331 | a pin is valid exactly with a canonical UUID text, the one algorithm, the text of a 32-byte key on the curve and the fingerprint computed from it |
| `Pins.BeforeIsLexicographic` | daemon/src/creds.rs:635-637 | the order of devices is that of their texts at the first difference |
| `Pins.SortedDetermined` | daemon/src/creds.rs:634-637 | a sorted list is determined by its members, so sorting after a push has one result |
| `Pins.InsertedSorted` | daemon/src/creds.rs:634-637 | pushing and sorting gives the sorted list of the same members |
| `Pins.MergeSucceedsIff` | daemon/src/creds.rs:605-639 | a merge succeeds exactly for a new device with a new key and room, or for the same device and key again |
| `Pins.MergeFailures` | daemon/src/creds.rs:605-633 | why a merge of a valid pin fails: a full list, a device with another key, or a key with another device |
| `Pins.MergeHolds` | daemon/src/creds.rs:605-639 | which pins a successful merge holds, and that it reports a change exactly when there is one |
| `Pins.MergeCanonical` | daemon/src/creds.rs:605-639 | a merge keeps the list canonical |
| `Pins.MergeKeepsProofs` | daemon/src/creds.rs:610-626 | a held proof is never dropped and every identity stays pinned |
| `Adoption.RetainedMembers` | daemon/src/creds.rs:427-434 | exactly the live pins stay, each as it was, and the count is zero exactly when nothing changed |
| `Adoption.RetainedCanonical` | daemon/src/creds.rs:427-434 | pruning keeps the list canonical |
| `Adoption.AdoptOneEffect` | daemon/src/creds.rs:496-588 | a proposal is adopted exactly when endorsed, well formed, free of clashes and there is room; otherwise nothing changes |
| `Adoption.EndorsedIff` | daemon/src/creds.rs:515-545 | an endorsement is exactly a verifying signature over this account, host, proposed key and device by a trusted key that is not the proposed one |
| `Adoption.AdoptOneAnswer` | daemon/src/creds.rs:496-588 | the reason answered for each proposal |
| `Adoption.AdoptAllSound` | daemon/src/creds.rs:466-593 | a pass keeps the list canonical and every pin in it, its newly-adopted count is the growth, and it brings only pins vouched for by a key held when it began |
| `Adoption.OrderIsIrrelevant` | daemon/src/creds.rs:496-588 | a batch of distinct devices and keys with room for all gives the same list in every order |
| `Adoption.PinList.MergePin` | daemon/src/creds.rs:605-639 | the in-place merge loop is the merge above, and a failure changes nothing |
| `Adoption.PinList.MergeValidPin` | daemon/src/creds.rs:608-638 | the scan finds the first pin sharing device or key and decides by it |
| `Adoption.PinList.RetainLive` | daemon/src/creds.rs:427-434 | the filtering loop keeps exactly the listed pins in their order, keeps a canonical list canonical, and counts zero exactly when nothing changed |
| `Adoption.PinList.AdoptEndorsed` | daemon/src/creds.rs:486-592 | the adoption loop against the keys snapshotted before it, with its per-device outcomes |
| `Adoption.PinList.AdoptNext` | daemon/src/creds.rs:496-588 | one proposal's outcome and effect |
| `Trust.EveryPinIsJustified` | daemon/src/creds.rs:466-593 | in every history each pin was there at the start, came by a login, or by an endorsement verified for this host against a pin held before that pass, which has a source in turn; and it stayed since |
| `Trust.TrustBeginsAtLogin` | daemon/src/browser_endorsement.rs:113-134 | from a history without founding pins, endorsers followed back in time end at a login whose own pin is the root's device and key |
| `Trust.NoVouchingWithinABatch` | daemon/src/creds.rs:485-492 | a pin endorsed only by keys not pinned when the pass began is not adopted, even if those keys are adopted in it |
| `Trust.BroughtBy` | daemon/src/creds.rs:436-446 | only a login's own pin or an endorsed proposal can add an identity |
| `Trust.ApplyKeepsCanonical` | daemon/src/creds.rs:375-709 | every operation keeps the pin list canonical before any validator sees it |
| `Trust.DomainIsStable` | daemon/src/creds.rs:723-746 | while there are pins, host id and server origin do not change |
| `Trust.SeedIsStable` | daemon/src/creds.rs:1468-1479 | once set, the host seed never changes, over logins, rotations, adoptions, prunes and sign-outs |
| `Trust.LoginEffect` | daemon/src/creds.rs:663-709 | a login succeeds exactly for its domain or no pins, a pin that merges and a valid result; the record then holds its token, host, server and pin, the other pins and the seed |
| `Trust.RotateEffect` | daemon/src/creds.rs:365-387 | a rotation takes a new token of 1 to 12288 characters, and changes nothing else |
| `Trust.SignOutEffect` | daemon/src/creds.rs:1605-1613 | signing out drops the token and keeps everything else |
| `Trust.IdentityEffect` | daemon/src/creds.rs:1468-1479 | a missing seed is set, one that is there stays, nothing else changes |
| `Trust.PruneEffect` | daemon/src/creds.rs:415-434 | exactly the pins in the live set stay, nothing else changes, and it saves exactly when a pin goes |
| `Trust.AdoptEffect` | daemon/src/creds.rs:466-593 | only pins come, each endorsed by a pin held before, and it saves exactly when one does |
| `Trust.HostKeyIs` | daemon/src/creds.rs:1482-1498 | the key a pass verifies for is that of the host's own seed |
| `Trust.TokenOfHistory` | daemon/src/creds.rs:375-387 | at every place of a history the token is that of the last login or rotation before it, none after a sign-out |
| `Endorsement.DecodeEncode` | daemon/src/browser_endorsement.rs:136-138 | base64url decoding inverts encoding, with the exact length |
| `Endorsement.DigitsAre` | daemon/src/browser_endorsement.rs:136-138 | the digits of table 2 of RFC 4648 |
| `Endorsement.EncodeDecode` | daemon/src/browser_endorsement.rs:140-153 | strict decoding accepts only what encoding produces |
| `Endorsement.WireIsCanonical` | daemon/src/browser_endorsement.rs:136-153 | the accepted signature strings are exactly the encodings of 64 bytes, and decoding inverts them |
| `Endorsement.ReencodingIsRedundant` | daemon/src/browser_endorsement.rs:149-151 | the re-encoding comparison rejects nothing that decoding accepted |
| `Endorsement.BrowserEncodingInjective` | daemon/src/browser_endorsement.rs:92-104 | the 153-byte per-host transcript determines every field |
| `Endorsement.AcctEncodingInjective` | daemon/src/acct_endorsement.rs:102-112 | the 118-byte account transcript determines every field |
| `Endorsement.BrowserFieldsAt` | daemon/src/browser_endorsement.rs:92-104 | length 153 and where each field stands |
| `Endorsement.AcctFieldsAt` | daemon/src/acct_endorsement.rs:102-112 | length 118 and where each field stands |
| `Endorsement.EncodingsDisjoint` | daemon/src/acct_endorsement.rs:102-112 | no account transcript equals, begins or extends a per-host one |
| `Endorsement.MagicsAre` | daemon/src/browser_endorsement.rs:28 | the two opening texts |
| `Endorsement.VerifyBrowser` | daemon/src/browser_endorsement.rs:118-134 | accepted exactly for this host, a trusted endorser and a verifying signature |
| `Endorsement.VerifyAcct` | daemon/src/acct_endorsement.rs:128-140 | accepted exactly for a trusted endorser and a verifying signature |
| `Endorsement.NoRepointing` | daemon/src/browser_endorsement.rs:10-13 | one signature serves one endorsement: no other host, account, device, key or transcript form |
| `InputActivity.NoUserInputIffOnlyReports` | daemon/src/activity.rs:335-430 | no user input exactly when the stream is complete terminal reports followed by at most one unfinished sequence |
| `InputActivity.UnfinishedIffCompletable` | daemon/src/activity.rs:374-430 | "unfinished" is exactly what further bytes complete to one report |
| `InputActivity.ChunkingIsIrrelevant` | daemon/src/activity.rs:366-372 | the verdict and the state do not depend on how the stream is cut |
| `InputActivity.InputClassifier.Consume` | daemon/src/activity.rs:374-430 | one byte moves the state and the verdict as the automaton says |
| `InputActivity.InputClassifier.Observe` | daemon/src/activity.rs:366-372 | the byte loop is the run of the automaton |
| `InputActivity.TablesAre` | daemon/src/activity.rs:359-364 | the byte classes by their characters |
| `Utf8.HeadSound` | daemon/src/activity.rs:144-212 | a character found at the front of the buffer is one whose encoding the buffer begins with (section 4 of RFC 3629) |
| `Utf8.HeadComplete` | daemon/src/activity.rs:144-212 | every encoded character at the front is found, with its length |
| `Utf8.EncodeExamples` | daemon/src/activity.rs:144-212 | an example of each length |
| `Utf8.DecodeEncoded` | daemon/src/activity.rs:144-212 | decoding a whole encoded text gives back its characters |
| `Utf8.PendingShape` | daemon/src/activity.rs:144-212 | an incomplete character is at most three bytes, continuation bytes after the first |
| `OutputActivity.ScanIsStrip` | daemon/src/activity.rs:96-142 | what the terminal automaton lets through is the stream with its control sequences cut out at once |
| `OutputActivity.TextStays` | daemon/src/activity.rs:144-147 | a byte outside a control sequence is text |
| `OutputActivity.CsiIsCut` | daemon/src/activity.rs:113-128 | a CSI sequence is cut out up to its final byte |
| `OutputActivity.OscIsCut` | daemon/src/activity.rs:96-142 | an OSC string is cut out up to its BEL or ESC backslash |
| `OutputActivity.CharsetIsCut` | daemon/src/activity.rs:96-142 | a character set choice is cut out |
| `OutputActivity.TablesAre` | daemon/src/activity.rs:96-142 | the byte classes by their characters |
| `OutputActivity.AsciiThatCounts` | daemon/src/activity.rs:214-227 | of the ASCII characters, the visible ones count if eligible |
| `OutputActivity.OutputClassifier.Observe` | daemon/src/activity.rs:66-78 | true exactly when the carry plus the counted characters of decoding all ground text at once reaches 3 |
| `OutputActivity.ObserveAll` | daemon/src/activity.rs:66-78 | for every chunking a fresh classifier reports activity exactly when the whole stream holds three counted characters |
| `OutputActivity.OutputClassifier.ConsumeTerminalByte` | daemon/src/activity.rs:96-142 | one byte through the terminal automaton |
| `OutputActivity.OutputClassifier.ConsumeGroundByte` | daemon/src/activity.rs:144-212 | one ground byte through the incremental decoder |
| `OutputActivity.OutputClassifier.ConsumeMultibyte` | daemon/src/activity.rs:160-212 | the decoder loop settles every complete or ill-formed part and keeps at most three bytes |
| `OutputActivity.OutputClassifier.CarryIsBounded` | daemon/src/activity.rs:144-212 | between bytes the carry is at most three bytes, and empty outside the ground state |
| `OutputActivity.OutputClassifier.RecordChar` | daemon/src/activity.rs:214-227 | counts an eligible visible character and reports the third |
| `OutputActivity.OutputClassifier.DiscardMeaningfulCarry` | daemon/src/activity.rs:92-94 | forgets the carry and nothing else |
| `Framing.ReadCommands` | scripts/udp-chaos-proxy.py:386-423 | for every split into blocks, the items queued are those of the whole stream split on newlines, oversize lines one error each, a nonempty tail parsed at the end; at most 16 KiB is kept |
| `Framing.FeedBlock` | scripts/udp-chaos-proxy.py:413-423 | one block continues the lines read so far |
| `Framing.SplitIsExact` | scripts/udp-chaos-proxy.py:413-414 | splitting loses nothing and leaves no newline inside a part |
| `Framing.SplitOfJoined` | scripts/udp-chaos-proxy.py:413-414 | and it is the only such splitting |
| `Framing.FrameOfLines` | scripts/udp-chaos-proxy.py:386-423 | for any lines: each in turn or an error over 16384 bytes, a nonempty open one, then the end |
| `ChaosRuns.DatagramsConserved` | scripts/udp-chaos-proxy.py:167-182 | after every run, per direction and class, in totals and in this epoch: received = forwarded + dropped + queued, bytes too, and reasons sum to drops |
| `ChaosRuns.LimitsHold` | scripts/udp-chaos-proxy.py:239-305 | after every run queue and mapping limits hold and the queued byte count is exact |
| `ChaosRuns.NoReplayNoReorder` | scripts/udp-chaos-proxy.py:258-334 | after every run each delivery is of a distinct datagram of its own epoch, not before it is due, with a delay the fault allows, never in an outage of its direction; without jitter in order of arrival |
| `ChaosAddresses.NoMisdelivery` | scripts/udp-chaos-proxy.py:239-323 | after every run what was forwarded are the bytes of its arrival, on the mapping it was received on or on a mapping of the client it came from |
| `ChaosProgress.TickForwardsAllDue` | scripts/udp-chaos-proxy.py:325-330 | in every reachable state a tick leaves nothing due in the queue and delivers all that was due on an open mapping and did not fail to send |
| `ChaosProgress.UndisturbedIsDelivered` | scripts/udp-chaos-proxy.py:258-288 | without outage, loss and delay a datagram that has or can get a mapping is delivered in the step that receives it |
| `ChaosFates.FateOfDatagram` | scripts/udp-chaos-proxy.py:258-323 | every received datagram ends as its fault, mapping and room say, in the source's order: dropped and counted once under that reason, sent and counted at once, or queued until now plus its delay |
| `ChaosFates.GaugesMove` | scripts/udp-chaos-proxy.py:255-305 | the high water marks are the maximum seen, and the mapping used is marked as used now |
| `ChaosFates.CommandMeans` | scripts/udp-chaos-proxy.py:208-237 | exactly which commands are accepted; a set gives each direction its own change in a new epoch with an empty queue and fresh counters, stop is noted, everything else changes nothing |
| `ChaosFates.NumbersAccepted` | scripts/udp-chaos-proxy.py:91-100 | which values a fault's number may have |
| `ChaosFates.TickCloses` | scripts/udp-chaos-proxy.py:331-334 | a tick closes exactly the mappings not used for the idle time |
| `ChaosFates.CloseMeans` | scripts/udp-chaos-proxy.py:341-348 | closing leaves no queue and no mapping, each that was closed |
| `ChaosFates.DiscardCounts` | scripts/udp-chaos-proxy.py:202-206 | what is discarded is counted as dropped for its reason, datagram by datagram |
| `ChaosFates.ClassIs` | scripts/udp-chaos-proxy.py:65-75 | the class of a datagram by its first bytes |
| `ChaosRuns.StepSound` | scripts/udp-chaos-proxy.py:202-348 | every event keeps the three invariants |
| `ChaosProxy.StepBalanced` | scripts/udp-chaos-proxy.py:202-348 | every event keeps both sets of counters balanced against the queue |
| `ChaosProxy.HeadDeliverable` | scripts/udp-chaos-proxy.py:325-330 | a due head may be sent without overtaking anything of its direction |
| `ChaosQueue.UpdateFault` | scripts/udp-chaos-proxy.py:78-101 | accepted exactly for acceptable changes; a named field takes the value given, the others stay, the result is in range |
| `ChaosQueue.CountReceived` | scripts/udp-chaos-proxy.py:167-182 | counting a datagram in puts it in flight in the balance |
| `ChaosQueue.CountForwarded` | scripts/udp-chaos-proxy.py:167-182 | counting it forwarded takes it out of flight |
| `ChaosQueue.CountDropped` | scripts/udp-chaos-proxy.py:167-182 | counting it dropped takes it out of flight, with one reason for one drop |
| `ChaosQueue.PushSorted` | scripts/udp-chaos-proxy.py:296-305 | the queue stays ordered by deadline and sequence |
| `ChaosService.Proxy.constructor` | scripts/udp-chaos-proxy.py:129-158 | starts in the initial state of the run theorems |
| `ChaosService.Proxy.DiscardPending` | scripts/udp-chaos-proxy.py:202-206 | every queued datagram counted as dropped, the queue empty |
| `ChaosService.Proxy.Command` | scripts/udp-chaos-proxy.py:208-237 | makes exactly the commanded step; a rejected command changes nothing |
| `ChaosService.Proxy.Reconfigure` | scripts/udp-chaos-proxy.py:220-228 | discards, switches faults, begins an epoch with fresh counters |
| `ChaosService.Proxy.MappingFor` | scripts/udp-chaos-proxy.py:239-256 | finds or makes a mapping within the limit |
| `ChaosService.Proxy.Receive` | scripts/udp-chaos-proxy.py:258-305 | makes exactly the receive step |
| `ChaosService.Proxy.Route` | scripts/udp-chaos-proxy.py:271-305 | outage, loss, immediate send, queue limit or queueing, in that order |
| `ChaosService.Proxy.Forward` | scripts/udp-chaos-proxy.py:307-323 | sends once or counts the drop with its reason |
| `ChaosService.Proxy.Tick` | scripts/udp-chaos-proxy.py:325-334 | forwards everything due in order, then closes exactly the idle mappings |
| `ChaosService.Proxy.Close` | scripts/udp-chaos-proxy.py:341-348 | discards the queue and closes every mapping |
| `CodexConfig.MeaningPreserved` | daemon/src/codex_home.rs:369-459 | every string the key table matches names from any window's home the place, component by component, that it named from the user's |
| `CodexConfig.RebasedTextIs` | daemon/src/codex_home.rs:443-459 | by the text: a home or absolute path is unchanged, a relative one stands behind the folder and one slash |
| `CodexConfig.JoinedComponents` | daemon/src/codex_home.rs:457-459 | the components of a joined path are those of the folder and then those of the path |
| `CodexConfig.KeyTableMeans` | daemon/src/codex_home.rs:128-148 | the key table matches exactly the positions written out, no key being literally `[]` |
| `CodexConfig.TokenFolderPreserved` | daemon/src/codex_home.rs:369-391 | every provider's token command runs in the folder it ran in |
| `CodexConfig.AtRewritten` | daemon/src/codex_home.rs:369-436 | at every position of the tree: matched texts are rebased, missing folders filled, everything else and the shape unchanged |
| `CodexConfig.RewritingIsIdempotent` | daemon/src/codex_home.rs:369-459 | rewriting twice is rewriting once |
| `CodexConfig.ReachesAsIntended` | daemon/src/codex_home.rs:393-436 | the code reaches exactly the intended positions unless a table key on the way is literally `[]` |
| `CodexConfig.BracketKeyIsRewritten` | daemon/src/codex_home.rs:393-404 | such a key is rewritten |
| `CodexConfig.RebaseRelativePaths` | daemon/src/codex_home.rs:369-391 | the loop over the key table and the providers computes the rewritten tree |
| `CodexLinks.FileSystem.LinkStore` | daemon/src/codex_home.rs:544-576 | for every state, link style and failure point no real file loses its last name and the source changes only by creation; without a failing call it fails exactly for a source that cannot be prepared or a hard link through the window's own link, and keeps the window's data exactly when it is the only copy; after linking, Current is what follows exactly outside `Unsettled`, and what the link opens as is exactly `Opened` |
| `CodexLinks.FileSystem.LinkPrepared` | daemon/src/codex_home.rs:546-575 | once the source is ready one name changes, and without a failing call each outcome has its exact condition |
| `CodexLinks.LinkLeads` | daemon/src/codex_home.rs:652-675 | a fresh symbolic link leads where the user's name led exactly when that was no loop and not through the link's own name |
| `CodexLinks.FileSystem.LinkStoreTwice` | daemon/src/codex_home.rs:544-576 | a second start answers Current and changes nothing, exactly outside `Unsettled` |
| `CodexLinks.FileSystem.PrepareStore` | daemon/src/codex_home.rs:578-590 | makes exactly the missing directory or empty file, and succeeds exactly when the right thing is or can be there and no call fails |
| `CodexLinks.FileSystem.Relink` | daemon/src/codex_home.rs:652-675 | replacing a link loses no file, changes one name, and succeeds exactly without a failing call and, for a hard link, a source not reached through the name |
| `CodexLinks.FileSystem.MakeLink` | daemon/src/codex_home.rs:652-675 | made exactly when no call fails and, for a hard link, the source opens a file; no other name changes, and what failed is taken away |
| `CodexLinks.FileSystem.UnlinkStore` | daemon/src/codex_home.rs:592-600 | without a failing call the name is freed exactly when it is a link or one of several names; otherwise nothing is lost |
| `CodexLinks.FileSystem.MirrorFile` | daemon/src/codex_home.rs:605-648 | from every state each outcome has its meaning for the state met and the one left, and without a failing call which outcome it is; the name opens as the user's file exactly when that is not reached through it |
| `CodexLinks.FileSystem.MirrorAfresh` | daemon/src/codex_home.rs:628-647 | frees the name and links it, exactly when no call fails and a hard link has a file to name once the name is free |
| `CodexStarts.ReconcileEntry` | daemon/src/codex_home.rs:231-245 | one entry's turn: exactly what it does with the state it meets, what it may change, how that is decided and left settled, and nothing at all when it is at rest |
| `CodexStarts.ReconcileStore` | daemon/src/codex_home.rs:233-237 | a conversation store's turn: which outcome it is without a failing call, kept only for the window's own data, and a link gone without a source |
| `CodexStarts.ReconcileMirror` | daemon/src/codex_home.rs:238-244 | a mirrored file's turn: kept only for a directory met, removed when nothing is wanted, in place or linked otherwise, and unlinked without a failing call exactly through the window's own link |
| `CodexStarts.DecidedFromStart` | daemon/src/codex_home.rs:205-267 | an entry decided at its turn is decided by the state the start found |
| `CodexStarts.Reconcile` | daemon/src/codex_home.rs:205-267 | a whole start from any state: the states it passes through, each entry's turn exact on the state it meets; directories and all data kept, every file not mirrored keeps a name; every entry decided by the state found and settled in the state left, mirrored files but the sign-in whatever the sign-in setting; a file system at rest is not changed at all |
| `CodexStarts.StartTwice` | daemon/src/codex_home.rs:205-267 | after a start that linked every store and settled every mirror, with the homes apart, a second start changes nothing |
| `CodexStarts.StoreOpens` | daemon/src/codex_home.rs:544-576 | after a whole start a linked store leads where the user's name led when it began, or is the user's file |
| `CodexStarts.RunStarts` | daemon/src/codex_home.rs:205-281 | over any sequence of starts with arbitrary changes between them, each entry of each start takes its exact turn, and by the state each start finds: the sign-in file is a directory that was found, absent (no user file, or sign-in from elsewhere) or opens as the user's file itself, with the exact exceptions; without a failing call one reached through no other entry is left unlinked only by a hard link through the window's own link |
| `CodexStarts.MirrorOpensIff` | daemon/src/codex_home.rs:605-648 | a mirror reached through no other entry opens as the user's file did when the start began exactly when links are hard or that file was not reached through the mirror's own name |
| `CodexStarts.SettledCache` | daemon/src/codex_home.rs:238-244 | the other mirrored files do not depend on how the user signs in: without a failing call each opens as the user's file, is absent where there is none, or is a directory that was found |
| `CodexLinks.HardLinkOfLinkExample` | daemon/src/codex_home.rs:710-714 | the hard-linked symbolic link that never comes to rest |
| `CodexLinks.StoreThroughWindowExample` | daemon/src/codex_home.rs:544-576 | the missing history file reached through the window's name: linked, current, and a loop |
| `CodexLinks.FolderThroughWindowExample` | daemon/src/codex_home.rs:544-576 | the folder reached through the window's name that becomes a loop |
| `CodexLinks.HardThroughLinkExample` | daemon/src/codex_home.rs:605-648 | the file reached through the window's link that no hard link can be made to |
| `CodexLinks.MirrorThroughWindowExample` | daemon/src/codex_home.rs:605-648 | the mirrored symbolic link that becomes a loop |
| `LaunchLimiter.EveryWindowBounded` | daemon/src/host_desktop.rs:152-166 | in every run, launches granted between any two requests are at most 3 + elapsed/500 ms |
| `LaunchLimiter.ServeBalance` | daemon/src/host_desktop.rs:152-166 | tokens stay between 0 and 3, and grants plus tokens left never exceed 3 + elapsed/500 ms |
| `LaunchLimiter.SpacedRequestGranted` | daemon/src/host_desktop.rs:59-61 | a request 500 ms or more after the previous one is granted |
| `LaunchLimiter.BurstOfThree` | daemon/src/host_desktop.rs:59-61 | a full bucket grants three at once, and then one after half a second |
| `LaunchLimiter.TokenBucket.TakeToken` | daemon/src/host_desktop.rs:152-166 | the in-place refill and take is one request of the run theorems |

## Left out

- Ed25519, SHA-256, UUID and URL parsing are parameters; JSON and TOML text, zeroizing and file permissions are not modelled.
- The digest of a legacy record stands for the record itself; lengths of tokens and URLs are counted in characters.
- Runs of the store are on the complete-file policies: a process with the keyring disabled behaves as Windows does. Saving, reading and rebuilding a torn projection under the native-keyring policy are modelled only where records are chosen and moved.
- A reset that deletes the credentials, and runs that start without a versioned file, are outside the run theorems; `FailedFirstSaveSurfaces` shows why.
- The cross-process lock is modelled by each load and each commit being one event.
- Deriving a keyring account name from the configuration directory is not modelled; whether it may migrate is an event parameter.
- In the fault injector one clock reading serves a whole event, the heap is the sorted sequence it stands for, mappings are numbered items, and an error from receiving itself and the last-seen timestamps are not modelled.
- `CodexConfig.RebaseRelativePaths`: the tree is rewritten on values, so update in place, key order, comments and spacing are not captured; Windows drive-relative paths are not modelled.
- Skills, project trust and the text of the merged configuration are not modelled; whether sign-in is from a file is an input of `Reconcile`, and the source home must differ from the window's.
- Folders are opaque names, so a user's home that is the window's own under another path (a symlinked folder) is outside the model.
- The decoder loop's branch for a valid prefix before an ill-formed part cannot be reached when bytes come one at a time and is not modelled.
- The launch limiter is over reals, not floating point; launching itself is not modelled.
- Release, canary, acceptance and probe scripts, the doctor and the command line would only add easy members.
