# mailkey in Dafny

A model of the sender's side of MKDP1, the mail-key discovery protocol: the trust engine that
decides which manifest a domain's mail is sealed to, the identity chain it follows when a signer
changes, the canonical byte formats everything is signed and hashed in, the bounded machinery
around it, and the header editing a message goes through.

- **Bytes and formats.** `Bytes`, `MsgPack` and `MsgPackProofs` (the MessagePack subset),
  `Fields`, `Base64Url`, `Text`; `Manifests`, `ManifestProofs` and `GoldenManifest`; `Envelopes`;
  `Proofs` (the detached identity proof); `Discovery` (DNS records and the Mail-Key header);
  `MailHeaders` and `HeaderLaws`.
- **Identity.** `Identity`, `SigningInputs`, `ChainWalk`, `ChainSoundness`, `ChainOrder`,
  `ChainCodec`, `ChainCodecProofs`.
- **Trust.** `Authority` (what a fetch establishes), `PeerModel` (the peer record), `MemStores`
  (the store), `Verdicts` (the decision table), `Resolution` (one resolution as a function of one
  domain's slot) and `Services` (the service's methods, writing a store step by step, each proved
  to leave the slot that function says and every other domain alone). Over runs: `Runs` with
  `DowngradeProtection`, `Interleavings`, `Pins`, `Epochs`, `Stability`, `Caches`, `Overrides`.
- **Bounded machinery.** `Admissions`, `TriggerQueue`, `SingleFlight`.

Run `dafny verify dfyconfig.toml`.

## How to read it

A *slot* is all a store holds about one domain: the peer record and the capability latch. An `Env`
is everything the world answers during one call: which store calls fail, what each reading of the
clock says, what the authority serves for each route, and the identity document. A *run* is any
sequence of deliveries, background resolutions, sightings, forgetting, policy changes and
downgrades, each with its own `Env`. Nothing is assumed of clocks: they may stand still or go back.

SHA-256, Ed25519 verification, IDNA normalization and the MessagePack reader are function-valued
parameters (`Mailkey.Primitives`). `Mailkey.Sound` is all that is asked of them: hashes have 32
bytes, normalization is idempotent and yields lowercase A-label names of at most 253 bytes, and the
reader inverts the packer on values whose maps are in key order. `SoundLibraries.SoundIsSatisfiable`
gives functions that meet it, with `MsgPack.Unpack` as the reader. Where a property needs hashes not
to collide, the lemma says on which inputs.

Assumptions the run theorems rest on:

- A step of a run completes before the next one of the same domain starts. The code does not see to
  that; pins, watermark and history need it from the read of the identity at peer/service.go:634 to
  the install at peer/service.go:720. The identity is written back whole at peer/service.go:652, so a
  DNS sighting or another resolution between the two lines is overwritten
  (`Pins.StaleDecisionOverwrites`); and a resolution between that write and the install can leave the
  older of two manifests effective under the watermark of the newer (`Epochs.LateInstallUndercuts`).
  The downgrade protection needs none of this: `Interleavings.NoSilentDowngrade` lets every store
  access of a delivery find a store that anything has changed since the last one.
- A store call that fails writes nothing.

What the proofs found, where the code and its comments say different things (the model follows the
code):

- **A failed read forgets pin and watermark.** The read before the decision ignores its error
  (peer/service.go:634). If that one read fails and both trust writes after it succeed, the identity
  is decided as for an unknown domain and written over the stored one. A response signed by anyone
  is then accepted and its signer replaces the pin; an older response is installed and the replay
  watermark goes back to it; a lapsed one, though refused, erases the watermark. `Pins.PinMoveIff`
  and `Epochs.ForwardIff` say exactly when pin and watermark survive; `Pins.PinReplacedOnFailedRead`,
  `Epochs.RollbackOnFailedRead` and `Epochs.WatermarkErasedOnFailedRead` are the failing cases. The
  run theorems hold of every run in which no step meets the failing condition.
- **The override and an expiring cache.** The two encrypting calls differ exactly when the delivery
  meets a stranger: the record is pinned and read, the response shows another identity or a broken
  proof, no history explains it, nothing usable is cached at the decision, and the trust writes
  succeed. That coincides with the ordinary call failing as refused, except when the cached manifest
  was still usable on entry, so that it expired in between: then the ordinary call still falls back
  to the cache and the override returns the stranger's manifest
  (`Overrides.OverrideMatchesRefusalIff`, `Overrides.OverridePrefersStranger`). In particular the two
  coincide whenever the cache does not expire during the call (`Overrides.OverrideMatchesRefusal`).
- **Chain order.** The documentation says the walk does not depend on the order of the entries. It
  does not while no fingerprint the walk stands on is left by two in-force entries
  (`ChainOrder.OrderAndStrangersIrrelevant`). Of two entries that do leave the pin, the order is
  irrelevant exactly when both verify and apply alike, or neither verifies (`ChainOrder.RivalsIff`):
  two verified rivals make the first listed win, and one that claims descent without verifying breaks
  the walk if it is listed first (`ChainOrder.OrderMatters`, `ChainOrder.BrokenRivalMatters`).
- **Cache bound.** A fetch's `ExpiresAt` is the bound Cache-Control sets, but the installed record
  keeps the manifest's own expiry (peer/state.go:70-110), so a cached answer lives as long as the
  manifest. Only the refresh time follows Cache-Control, and a max-age of nothing, which makes the
  response count as expired (`Caches.MaxAgeZeroIsNotInstalled`).
- **Names that start with white space** are found by `HeaderValue` and skipped by `RemoveHeader`
  (`HeaderLaws.RemovedIsGoneIff`), and a text that starts with a folded line defeats both reading
  back what was set and last-write-wins (`HeaderLaws.SetReadsBackIff`, `HeaderLaws.LastWriteWinsIff`).

## Model

| member | source | states |
|---|---|---|
| Interleavings.NoSilentDowngrade | peer/service.go:470-573 | Let the store of a domain go through any operations whatever, of deliveries, background resolutions, sightings, forgetting and administrators, interleaved in any way, with the latch in force at some moment and no administrator's downgrade from there to the moment the policy is asked: a delivery, with or without the override, that makes its store accesses anywhere in that history, whatever faults it meets, yields a manifest or a hold while the domain is not disabled; only a resolver that itself reports "disabled" is exempt. |
| Interleavings.DeliveryAcrossHolds | peer/service.go:503-573 | The same of one delivery whose every store access finds an arbitrary slot, with the latch in force at the one the policy reads. |
| Interleavings.LatchKeptThrough | peer/memstore.go:82-310 | No sequence of single store operations without an administrator's downgrade clears the latch. |
| Interleavings.DeliveryUndisturbed | peer/service.go:470-736 | When nothing else touches the store, such a delivery is the atomic one. |
| DowngradeProtection.LatchSurvives | peer/memstore.go:237-257 | No step but an administrator's downgrade clears the latch; forgetting the peer does not. |
| DowngradeProtection.LatchedDelivery | peer/service.go:558-573 | With the latch in force, one delivery is served or held, whichever store calls fail in it. |
| DowngradeProtection.FirstAnswerIsNeverBare | peer/service.go:636-654 | The very call that first hears from an authority, with no cache to serve, is protected, whichever of its writes fail and whether or not the domain was sighted before. |
| DowngradeProtection.BareMeansUnprotected | peer/service.go:558-573 | A bare error leaves the service only for a domain not known to answer, with the policy readable and not requiring encryption. |
| DowngradeProtection.SettleKeeps | peer/service.go:634-720 | A response sets the latch before anything else is written, keeps the policy, and fails only as a hold or after the latch. |
| Pins.PinOverRun | peer/service.go:649-736 | Over a whole run in which no failed read costs the pin (the condition of PinMoveIff, step by step) a pin is never lost and moves only by followed rotations, each by the history served on the route of the response it explains, unless an automatic peer is forgotten. |
| Pins.SettledPin | peer/service.go:634-736 | One response moves the pin of a readable record only along a path of verified statements, in force then, from that pin to the response's signer; a pin is born only from the response's own valid proof. |
| Pins.PinMoveIff | peer/service.go:634-652 | Exactly when the pin stays or moves along such a path: unless the read before the decision fails, both trust writes succeed, and the response is not the pin's own. |
| Pins.PinReplacedOnFailedRead | peer/service.go:634-652 | The exception is real: on that failed read any validly signed response is installed and its signer pinned. |
| Pins.StaleDecisionOverwrites | peer/service.go:634-652 | Why steps are serialized: a decision taken on an unpinned snapshot writes its own pin over whatever was stored meanwhile. |
| Pins.SettledInstall | peer/service.go:655-736 | The effective manifest changes exactly by installing the response, and while a pin is stored the response carries a valid proof of that pin, whatever calls fail. |
| Caches.StepInstallsSigned | peer/service.go:649-736 | In any state of any run, what a step installs while it leaves a pin stored carries a valid proof of that pin, over the domain and the very bytes installed. |
| Pins.PinKeyStaysSound | peer/service.go:768-838 | Pinned fingerprint and pinned key stay a pair, through pinning, every followed rotation and any faults, the failed decision read included. |
| Pins.AuthorizedPinSound | peer/service.go:768-838 | A rotation path from a sound pin ends in a sound pin of the same domain, without a domain comparison. |
| Pins.RouteIsLatestAndPinned | peer/service.go:337-350 | A delegated route is taken only for a pinned domain, and is the one the latest sighting named; an earlier sighting wins a tie. |
| Epochs.OrderedOverRun | peer/service.go:634-720 | Over every run in which no failed read costs the watermark (the condition of ForwardIff, step by step), the entries installed since the last followed rotation are strictly newest first, and the watermark is at the newest or beyond. |
| Epochs.ForwardOverRun | peer/identity.go:219-299 | Between followed rotations the watermark never goes back and never changes manifest at one instant, through refusals, forgetting that keeps the record, and every fault but the failed read that costs it. |
| Epochs.SettleOrdered | peer/identity.go:219-299 | One response, unless a failed read costs the watermark, keeps the epoch ordered and moves the watermark only forward, to the response it installs. |
| Epochs.ForwardIff | peer/service.go:634-652 | Exactly when a response that follows no rotation keeps the watermark or moves it forward: unless the read before the decision fails, both trust writes succeed, and the response's own mark (none if it is lapsed) is older than the one overwritten, or another manifest at that instant. |
| Epochs.RollbackOnFailedRead | peer/service.go:634-652 | The exception is real: on that failed read an older response is installed and the watermark goes back to it. |
| Epochs.WatermarkErasedOnFailedRead | peer/service.go:634-652 | On that failed read a lapsed response, though refused, erases the watermark. |
| Epochs.LateInstallUndercuts | peer/service.go:652-720 | Why calls are serialized up to the install: one that comes after a newer response took cache and watermark puts the older manifest in front under the newer watermark. |
| Epochs.InstalledOrdered | peer/state.go:70-110 | Installing what is newer than the newest, or the same manifest again, keeps the history ordered within its limit of eight. |
| Stability.DistinctOverRun | peer/state.go:82-99 | Over every run from an empty store, followed rotations included: among the entries installed since the last one the effective id does not appear in the history, nor any id twice. |
| Stability.UnstableOverRun | peer/state.go:82-122 | After every such run, a step that newly marks the record unstable installs an id from before the last followed rotation, its own included. |
| Stability.NamedOverRun | peer/state.go:82-99 | Over every run, every record held is named by its id as the response it came from was. |
| Stability.SteadyOverRun | peer/state.go:82-99 | A run that follows no rotation is one epoch: its whole history is strictly newest first and the record is never marked unstable. |
| Caches.CacheRefinesFetch | peer/service.go:908-921 | After any run from an empty store, a delivery yields what the authority just answered or the last installed fetch (manifest, id, bytes, fetch time, host), unexpired at the very reading of the clock that served it. |
| Caches.EffectiveIsLastInstalled | peer/state.go:70-110 | In every reachable state the effective manifest is the response last installed since the peer was forgotten, and nothing else. |
| Caches.SettleCache | peer/service.go:655-720 | Whatever store calls fail, a response changes the effective manifest, the history and the unstable mark exactly by being installed. |
| Caches.MaxAgeZeroIsNotInstalled | resolver/resolver.go:466-485 | A response served with a max-age of nothing is expired on arrival and is not installed, except by a followed rotation. |
| Caches.ServedSeals | envelope/envelope.go:133-165 | What a delivery serves passes every check Seal makes before key agreement, up to the manifest's expiry. |
| Envelopes.SealedHeader | envelope/envelope.go:133-190 | A result that passes those checks gives a well-formed header whose kid is that of the key sealed to, as the receiver recomputes it. |
| Overrides.ResolveLifts | peer/service.go:655-718 | From the same store, clock and answers the override leaves the same store, differs exactly on the identity refusal, and then returns the fetched, proof-carrying, uninstalled manifest. |
| Overrides.LiftedVerdict | peer/service.go:877-879 | What the override lifts is never a replay, and only with no usable cache at the decision. |
| Overrides.RefusedIffStranger | peer/service.go:634-718 | Exactly which responses are refused so that an override can lift it, said of the store, the faults, the clock and the response alone. |
| Overrides.OverrideLifts | peer/service.go:462-534 | The same for the two public calls, cache fallback and policy wrapping included: they differ exactly when the delivery meets a stranger. |
| Overrides.OverrideMatchesRefusalIff | peer/service.go:503-534 | Exactly when the difference of the two public calls coincides with the ordinary one failing as refused, said of the inputs alone: unless a stranger is met with the cache still usable on entry. |
| Overrides.OverridePrefersStranger | peer/service.go:503-534 | The exception is real: a cache running out while a stranger answers. |
| Services.Service.ResolveEncrypting | peer/service.go:470-484 | The public call, on the real store: outcome and slot are those of the resolution function; no other domain changes. |
| Services.Service.ResolveUnwrapped | peer/service.go:503-534 | Cache when fresh, authority when not, cache again when the authority fails. |
| Services.Service.PolicyFailure | peer/service.go:558-573 | Which errors leave wrapped as a hold, an unreadable latch counting as set. |
| Services.Service.Resolve | peer/service.go:591-736 | resolve, step by step on the store. |
| Services.Service.CachedAnswer | peer/service.go:592-603 | The cached answer of an unforced resolution, a disabled peer included. |
| Services.Service.Fetch | peer/service.go:608-621 | The network half: an unreachable authority is recorded and its error passed on. |
| Services.Service.Settle | peer/service.go:634-654 | Decide, then latch, then the rest; each failing write stops the sequence there. |
| Services.Service.Conclude | peer/service.go:652-722 | Identity before manifest. |
| Services.Service.Refuse | peer/service.go:655-718 | A refusal: settled by history, or recorded and answered with cache, override or hold. |
| Services.Service.Install | peer/service.go:720-736 | The install and its three failures. |
| Services.Service.FollowRotation | peer/service.go:768-838 | The two writes of a followed rotation, the first standing if the second fails. |
| Services.Service.WalkHistory | peer/service.go:768-803 | Where the published history leads from the stored pin, or that it settles nothing. |
| Services.Service.RouteFor | peer/service.go:337-350 | The scan for the latest sighting. |
| Services.Service.Refresh | peer/service.go:413-433 | A forced resolution, disabled or not. |
| Services.Service.Forget | peer/service.go:576-586 | Forgetting, through the store. |
| Verdicts.AcceptedIff | peer/identity.go:73-200 | A response may be installed exactly when the pin (if any) signed it, it is unexpired, and it is in order; otherwise mail is sealed only with a usable cache. |
| Verdicts.DnsOnlyCorroborates | peer/identity.go:73-186 | DNS never decides whether mail is sealed or what is installed, and never touches an established pin. |
| Verdicts.PinStands | peer/identity.go:265-299 | Folding any verdict leaves an established pin, its key and its date. |
| Verdicts.PinBornIff | peer/identity.go:265-299 | When a pin is born, and of what. |
| Verdicts.WatermarkFollowsAcceptance | peer/identity.go:219-299 | The watermark is exactly the last accepted manifest; a refusal leaves it. |
| Authority.ReceivedIsVouched | resolver/resolver.go:316-379 | Every accepted response parses canonically for the domain, names itself by its hash, is unexpired, consents to the host it came from, and keeps a wrong proof apart from a missing one. |
| Authority.CheckAuthorityConsent | resolver/resolver.go:388-403 | The scan accepts exactly a host some declared domain derives. |
| Authority.ComputeCacheUntil | resolver/resolver.go:466-485 | The first directive that shortens the life wins. |
| Authority.ShortenedBounds | resolver/resolver.go:466-485 | The cache never outlives the manifest and is never cut to before the fetch. |
| Authority.MaxAgeZero | resolver/resolver.go:466-485 | A usable max-age of nothing ends the cache at once, unless an earlier directive has already shortened its life. |
| PeerModel.PeerRecord.Install | peer/state.go:70-110 | The record after an install, in place. |
| PeerModel.PeerRecord.Demote | peer/state.go:82-99 | Demotion, the history limit and the unstable mark. |
| PeerModel.PeerRecord.HasRotatedBack | peer/state.go:115-122 | The scan of the history. |
| PeerModel.PeerRecord.Observe | peer/state.go:143-178 | A sighting: dated, classified, coalesced by source, its DNS fingerprint kept if not older. |
| PeerModel.PeerRecord.Coalesce | peer/state.go:162-172 | The scan for the sighting of the same source. |
| PeerModel.PeerRecord.Reconcile | peer/state.go:202-220 | Every sighting reclassified and the state derived again. |
| PeerModel.PeerRecord.Fail | peer/state.go:226-233 | A failure recorded. |
| PeerModel.PeerRecord.Forget | peer/state.go:283-296 | The cache cleared; policy and identity kept. |
| PeerModel.ObservationsBounded | peer/state.go:143-178 | A flood of sightings keeps one per source, at most three, the latest among them. |
| PeerModel.CoalescedKeepsOthers | peer/state.go:162-172 | A sighting replaces the one of its own source and no other. |
| PeerModel.RefreshInLife | peer/state.go:126-138 | A manifest falls due six hours before its bound, or half way there, and always before it. |
| MemStores.MemStore.GetPeer | peer/memstore.go:52-66 | A copy with its derived state current. |
| MemStores.MemStore.PutObservation | peer/memstore.go:82-92 | The slot after a sighting, a missing record created; no other slot changes. |
| MemStores.MemStore.InstallManifest | peer/memstore.go:94-113 | Refuses another domain's result and a disabled peer; installs otherwise. |
| MemStores.MemStore.RecordFailure | peer/memstore.go:115-125 | The failure noted on the slot. |
| MemStores.MemStore.SetPolicy | peer/memstore.go:155-171 | The three named policies, and no other. |
| MemStores.MemStore.ForgetPeer | peer/memstore.go:173-192 | An automatic peer is deleted with its pin, any other keeps its identity; the latch map is not touched. |
| MemStores.MemStore.SetIdentity | peer/memstore.go:296-310 | The identity written whole; a missing record is created with the empty policy. |
| MemStores.MemStore.MarkValidated | peer/memstore.go:237-257 | The latch set, its first time kept. |
| MemStores.MemStore.SetMKDP1Disabled | peer/memstore.go:259-276 | The administrator's downgrade, and its lifting. |
| ChainWalk.WalkChain | identity/rotation_verify.go:181-248 | The nested loops compute the walk: bounded, each entry used once, first eligible entry in force. |
| ChainWalk.NextLink | identity/rotation_verify.go:188-224 | The inner scan. |
| ChainSoundness.WalkSound | identity/rotation_verify.go:167-248 | Whether it succeeds or fails, the result ends a path of distinct statements, each in force and verified under the key before it; Revoked exactly when the last is a terminal revocation; and the path is maximal: no in-force entry outside it descends from its end, or one does and does not verify. |
| ChainSoundness.WalkFromStops | identity/rotation_verify.go:187-247 | Why a walk stops, the entries used up being exactly those it applied: at a terminal revocation, at an in-force entry that claims descent and does not verify, or where no unused in-force entry descends. |
| ChainSoundness.WalkStaysInDomain | identity/rotation_verify.go:68-147 | From a pin that is the key's own fingerprint, every applied statement is for that domain. |
| ChainOrder.OrderAndStrangersIrrelevant | identity/rotation_verify.go:167-248 | If no fingerprint the walk stands on is left by two in-force entries, the walk is the same for every order and for any added entries it never visits. |
| ChainOrder.OrderMatters | identity/resource.go:78-80 | Without that hypothesis the documented independence fails: any two in-force entries that verify under the pin's key and name different successors make the first listed win. |
| ChainOrder.RivalsIff | identity/rotation_verify.go:187-247 | Exactly when the order of two in-force entries that leave the pin is irrelevant: both verify and apply alike, or neither verifies. |
| ChainOrder.BrokenRivalMatters | identity/rotation_verify.go:215-221 | An in-force entry that claims descent and does not verify breaks the walk at once when listed before one that does, whatever follows them; listed after it, the walk moves off the pin. |
| ChainCodec.PackChain | identity/resource.go:524-533 | The packing loop. |
| ChainCodec.ParseChain | identity/resource.go:535-563 | The reading loop: bounds, and the first bad statement refuses the list. |
| ChainCodec.PackDoc | identity/resource.go:203-249 | The document's bytes. |
| ChainCodec.ParseDoc | identity/resource.go:260-360 | The document's checks: for the caller's domain, the fingerprint recomputed. |
| ChainCodecProofs.ChainRoundTrip | identity/resource.go:89-200 | Reading a packed list of at most 32 statements and 64 KiB gives it back, absent signatures and the zero expiry included, its times cut to whole seconds. |
| ChainCodecProofs.WholeChainRoundTrip | identity/resource.go:524-563 | With whole-second times the list comes back equal, and every walk of it is the same. |
| ChainCodecProofs.StoredVerifies | identity/resource.go:89-200 | A statement verifies after storage exactly when it did before. |
| ChainCodecProofs.DocRoundTrip | identity/resource.go:203-360 | A packed document whose fingerprint is its key's parses to itself, its domain normalized and its times whole. |
| ChainCodecProofs.DocNamesItsKey | identity/resource.go:260-360 | A parsed document is the caller's domain's, and its fingerprint is its key's. |
| SigningInputs.TranscriptUnambiguous | identity/identity.go:110-119 | The undelimited context, domain and manifest determine the domain and the manifest. |
| SigningInputs.SigningBytesIff | identity/rotation.go:106-142 | Two statements sign the same bytes exactly when every signed field, the type included, is the same. |
| SigningInputs.ContextsApart | identity/rotation.go:134-142 | No manifest transcript is any statement's signing bytes. |
| ManifestProofs.CanonicalIff | manifest/manifest.go:224-336 | Parsing succeeds with a manifest exactly on the bytes it packs to, with whole-second times and the requested domain. |
| ManifestProofs.PackInjective | manifest/manifest.go:146-206 | Different manifests have different bytes. |
| ManifestProofs.PackedSize | manifest/manifest.go:146-206 | No canonical manifest is near the body limit, so the limit refuses none. |
| ManifestProofs.TopSorted | manifest/manifest.go:188-205 | The fields stand in key order, with and without the authority list. |
| Manifests.PackManifest | manifest/manifest.go:146-206 | Pack, with the loops over the authority list. |
| Manifests.BoundedKeys | manifest/manifest.go:410-429 | The scan for a field outside the schema. |
| Manifests.ReadAuthority | manifest/manifest.go:434-463 | One to four canonical domains, or absent. |
| GoldenManifest.VectorMatches | manifest/manifest_test.go:51-69 | Packing the published fixture gives the published bytes. |
| MsgPackProofs.UnpackInvertsPack | manifest/manifest.go:205-232 | Reading what was packed gives the value back. |
| MsgPackProofs.PackPrefixFree | identity/identity.go:100-119 | No packed value is a proper prefix of another, so what follows one can be told apart. |
| Envelopes.WireIff | envelope/wire.go:27-154 | Exactly one byte string is accepted per envelope. |
| Envelopes.TruncatedVersion | envelope/wire.go:52-154 | A version that only truncates to 1 passes every other check and is caught by the canonical comparison. |
| Envelopes.AADInjective | envelope/envelope.go:293-307 | The associated data determines every header field. |
| Base64Url.OneSpelling | identity/proof.go:152-166 | A value is decoded from exactly one string, its encoding. |
| Base64Url.AcceptedIffSpelling | manifest/manifest.go:361-385 | Exactly the strings of the right length, over the alphabet, with no spare bit set are accepted; line breaks are refused. |
| Base64Url.EncodeInjective | identity/proof.go:152-153 | Different values have different spellings. |
| Proofs.WriteProof | identity/proof.go:58-65 | The three fields replaced; nothing written without a proof. |
| Proofs.ReadIff | identity/proof.go:88-121 | A proof is read exactly from the fields that write it; absence only when all three are absent. |
| Proofs.WriteThenRead | identity/proof.go:58-121 | Writing then reading returns the proof, whatever the header held. |
| Discovery.ParseParams | discovery/discovery.go:281-377 | The parsing loop, duplicates and broken parts refused. |
| Discovery.ParseDNS | discovery/discovery.go:180-198 | Each record is read or skipped, in order, and every one is accounted for. |
| Discovery.CollectedIff | discovery/discovery.go:281-300 | A text is collected exactly when no part is broken and no key is said twice, and then holds exactly what was said. |
| Discovery.OrderAndSpacing | discovery/discovery.go:281-377 | Texts that say the same fields mean the same, within the length limit. |
| Discovery.Reordered | discovery/discovery.go:281-300 | Any reordering of the parts says the same fields. |
| Discovery.HeaderRoundTrip | discovery/discovery.go:204-231 | A formatted header reads back as normalized domain, id and authority exactly when there is no authority or the two names total at most 437 bytes. |
| Discovery.RecordRoundTrip | discovery/discovery.go:180-261 | Every formatted record reads back, fingerprint or id, valid authority or not. |
| MailHeaders.SplitHeaderBody | message/header.go:27-37 | The loop finds the block and the body. |
| MailHeaders.HeaderValue | message/header.go:47-70 | The loop reads the first occurrence, unfolded. |
| MailHeaders.RemoveHeader | message/header.go:93-128 | The loop drops the field and its folded lines. |
| MailHeaders.SetHeader | message/header.go:84-89 | The new line before what removal leaves. |
| HeaderLaws.RemoveTwice | message/header.go:93-128 | Removal is idempotent. |
| HeaderLaws.RemoveCommutes | message/header.go:93-128 | Removals commute, for any two names. |
| HeaderLaws.RemoveKeepsBody | message/header.go:93-128 | The body is untouched, byte for byte. |
| HeaderLaws.RemoveIsOfBlock | message/header.go:93-128 | What is left of the block is removal applied to the block alone. |
| HeaderLaws.RemoveKeepsOthers | message/header.go:47-128 | Every other field keeps its value. |
| HeaderLaws.RemovedIsGoneIff | message/header.go:47-128 | A removed field reads as empty, exactly for names that do not look like a fold. |
| HeaderLaws.SetReadsBackIff | message/header.go:84-89 | What was set reads back trimmed, exactly when the text starts with no folded text. |
| HeaderLaws.LastWriteWinsIff | message/header.go:84-89 | The last write wins, exactly when the text starts with no folded line. |
| HeaderLaws.SetKeepsTheRest | message/header.go:84-89 | Setting keeps the body and every other field. |
| Admissions.Admission.AllowObservation | peer/admission.go:127-144 | Refuses exactly a repeat within the interval; remembers what it admits. |
| Admissions.Admission.AllowNewPeer | peer/admission.go:153-169 | One step of the bucket. |
| Admissions.Admission.Sweep | peer/admission.go:184-214 | There is always room for one more afterwards, whatever the entries, their order and the clock. |
| Admissions.Admission.Extremes | peer/admission.go:200-208 | The scan that restarts at the zero time still names the time of some entry, no later than the newest. |
| Admissions.Admission.Forget | peer/admission.go:174-178 | One domain's memory dropped. |
| Admissions.WindowBound | peer/admission.go:153-169 | Over any window of calls and any clock readings, at most a burst and what the advance of the clock's high-water mark pays for is admitted. |
| Admissions.TokensBalance | peer/admission.go:153-169 | Tokens are conserved: admitted and left never exceed held and refilled. |
| Admissions.RefillAdmits | peer/admission.go:153-169 | A refill period past the high-water mark, a call passes. |
| Admissions.EvictionNeverRefuses | peer/admission.go:180-183 | Evicting never makes a domain refused. |
| TriggerQueue.OneTokenEach | peer/service.go:132-176 | In every interleaving a domain is pending exactly when one token for it exists. |
| TriggerQueue.AtMostOneSlot | peer/service.go:155-176 | A domain occupies at most one slot of the bounded queue. |
| TriggerQueue.TriggerIsCovered | peer/service.go:132-176 | Every trigger, coalesced or not, is followed by a resolve start, a reported drop, or someone still on the way. |
| TriggerQueue.TriggersConserved | peer/service.go:132-176 | Accepted triggers equal resolve starts, drops and outstanding tokens. |
| SingleFlight.OneOwnerPerKey | resolver/resolver.go:213-234 | At most one owner per key, and an owner takes only its own call off the list. |
| SingleFlight.OutcomeIsTheOwners | resolver/resolver.go:213-234 | What a caller returns is what an owner of the same normalized request returned. |
| SingleFlight.SharedKeyIsSharedRequest | resolver/resolver.go:192-211 | Two calls share a key exactly when they ask for the same normalized domain through the same authority. |

## Left out

- Private keys, X25519, HKDF, AES-GCM, Ed25519 signing and `Open`: secrecy and unforgeability are not claimed.
- TLS, HTTP, redirects, dialing, address policy, timeouts, semaphores and media types: of a fetch only what is established after the body is read.
- IDNA: a normalized name is whatever `Sound` says of it; white space and case folding of text are ASCII.
- The MessagePack library: that `Get` answers its null value for an absent key, so the required-field checks of the documents never fire and each field's type check catches absence, is taken from its use here.
- `component/`, `wellknown/`, `message.Seal` assembly, health, self-check and pruning.
- `DomainCandidatesOf`, `DiscoveryURL`, and the agreement of several DNS records (`singleID`, `singleAuthority`, `singleFingerprint`): a sighting enters a run already summarized.
- Issues, alerts, callbacks, error texts, the Contested note's text and an observation's context: they have no effect on trust; a contested note is a flag.
- Which error a codec reports: errors carry only what the service distinguishes.
- `ListPeers`, `ListCapabilities`, `CheckAuthority` and by-fingerprint documents.
- Saturating durations and 64-bit instants: instants and durations are unbounded integers, bucket tokens are reals.
- Interleavings inside one domain's resolution, for pins, watermark and history: steps of a run are serialized, as said above.
- Workers after Close, and whether an outstanding token is ever served: only safety is stated.
- The queue's direct handover to a waiting worker is the send followed by the receive.
- Epochs.OrderedOverRun: says nothing of entries older than the last followed rotation, because a rotation restarts the watermark; and nothing of runs with a step that Epochs.ForwardIff shows to lose the watermark, of which it is false.
- Epochs.ForwardOverRun: excludes the same steps, for the same reason.
- Pins.PinOverRun: excludes the steps that Pins.PinMoveIff shows to lose the pin.
- Stability.DistinctOverRun: supposes a function naming each manifest id's issue time, which is the absence of hash collisions among the run's responses; so do the other results of that module.
- ChainSoundness.WalkStaysInDomain: supposes SHA-256 keeps the domains of the walked entries apart.
- HeaderLaws.RemoveKeepsOthers: for names without a colon, distinct whatever their case, the kept one not starting with white space, as field names are.
