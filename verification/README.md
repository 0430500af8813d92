# Owlauth: a verified model of its protocols and release tooling

This project models the parts of Owlauth whose correctness depends on several steps, several
processes or several files agreeing with one another, and proves what holds over all of their runs.
To check it, run `dafny verify dfyconfig.toml`.

| area | files |
|---|---|
| Shared notions | `Wrappers`, `Collections` |
| Retention pruning of the server database | `Batch`, `Retention`, `RetentionRun`, `RetentionSafety`, `RetentionLive`, `RetentionConvergence`, `RetentionSurvivors`, `RetentionOrder`, `RetentionDepth` |
| The command line's shared profile store | `Profiles`, `ProfileRuns`, `ProfileGrowth` |
| Start-up readiness of custody providers | `Readiness`, `Providers` |
| The canonical protection context | `Bytes`, `Context` |
| The SDK contract normaliser | `Text`, `JsonPointer`, `JsonText`, `OpenApi`, `Contract`, `Surface`, `SurfaceWitness` |
| Release ordering, materialisation, upload and evidence | `SemVer`, `ReleaseGate`, `Materialise`, `Upload`, `Uploaders`, `Evidence`, `EvidenceWitnesses` |

**Retention.** The tables are finite maps. A statement takes the first eligible rows in its ORDER BY
up to its LIMIT, leaving out rows that other transactions hold locked (SKIP LOCKED), and follows the
schema's ON DELETE CASCADE edges. Time and locks are a parameter of every statement, so safety holds
for all of them. Convergence fixes the time and holds no locks. Two facts come from elsewhere: a replay
belongs to its parent's event and gets a larger sequence when it is inserted
(`crates/owlauth-server/src/adapters/postgres/webhook.rs`, lines 1318 to 1339), and a recipient material
belongs to one SMTP test (a unique key). `Integrity` states them together with the foreign keys and the
row checks of deliveries, and every run keeps them all.

**Profile store.** Any number of processes add, use, check and rebind profiles. Each takes an unlocked
snapshot, waits for an arbitrary discovery reply, and commits under the lock against the store as it
is then. A storage failure can strike anywhere. Serialised size is an arbitrary function `bytes`.

**Readiness.** `World` gives the inventory at every instant, changing arbitrarily between any two
reads, except that a change raises the revision (`RevisionGuards`). Reads can fail, owners of signing
keys can disagree and providers can refuse at any instant. Pages follow the repository's keyset contract.

**SDK contract.** Documents are JSON trees, from which the operations are extracted and to whose
canonical text the search for forbidden words applies. "Reference" means what `references_in` finds:
the walk chooses its mode by key name, so a `$ref` directly below a property called `content` is not one
(`TextIsSelfContainedIff` says what that costs).

**Release tooling.** Version text is parsed and ordered as in section 11 of SemVer 2.0.0. Digests are
uninterpreted functions. The registry is immutable and the first write wins; requests and answers get
lost, lookups are stale, and any number of uploaders and other clients act between any two requests.

Where a promise does not hold of the code as it stands, the model keeps the code and states exactly
when it does hold:

- A saved profile store reloads if and only if its serialised size is within the limit, because the
  limit is checked on load and not on save. Past it, no command succeeds again, and valid adds alone
  get there from no store (`ReloadsIffItFits`, `OversizedForever`, `ValidAddsOutgrowTheLimit`).
- The reference that the normaliser builds for a security scheme denotes that scheme if and only if
  the name has no `/` and no `~0` or `~1`, because the name is not escaped
  (`SecurityReferenceNamesItsScheme`). A surface therefore holds a named scheme if and only if its
  name needs no escaping or another reachable reference names it (`NamedSchemesArePresent`).
- Every `$ref` in the text of a surface has its component there if and only if those among names or
  inside opaque values have (`TextIsSelfContainedIff`). There are documents the normaliser accepts
  whose surface silently lacks both a named scheme and such a component (`NamedSchemeIsMissing`).
- The evidence verifier accepts a manifest written by the producer if and only if the caller asks for
  its component, the descriptor filed there names that component, the caller's expectations match,
  and, where both browsers count, the chromium result came first (`ManifestsVerify`,
  `FirefoxFirstIsRefused`, `MisfiledIsRefused`).

## Model

| member | source | states |
|---|---|---|
| Batch.TakeSize | crates/owlauth-server/src/maintenance.rs:177-191 | ORDER BY with LIMIT takes exactly the smaller of the limit and the number of candidate rows, ties included |
| Batch.TakeIsFirst | crates/owlauth-server/src/maintenance.rs:177-191 | every row taken sorts before every row left behind |
| Retention.Chosen | crates/owlauth-server/src/maintenance.rs:177-413 | a statement takes unlocked eligible rows only, as many as its limit and their number allow |
| Retention.ChosenAreFirst | crates/owlauth-server/src/maintenance.rs:177-413 | a row passed over because of the limit sorts after every row taken, for each of the ten orders |
| Retention.LongestDueFirst | crates/owlauth-server/src/maintenance.rs:177-413 | rows that have been due longest go first, and among deliveries of equally old events a later replay goes before an earlier one |
| Retention.ApplyKeepsIntegrity | crates/owlauth-server/src/maintenance_integration_tests.rs:185-280 | no statement breaks a foreign key, a unique key or a delivery's row checks, whatever subset of its eligible rows it takes |
| Retention.CancelKeepsKeys | crates/owlauth-server/migrations/20260806000000_foundation.sql:4716-4717 | cancelling deliveries keeps their replay and terminal-time checks and every key through them |
| Retention.SessionCascadeIsEmpty | crates/owlauth-server/src/maintenance.rs:231-253 | deleting eligible application sessions cascades to no refresh generation and strands no logout interaction |
| RetentionRun.Database.DeleteCount | crates/owlauth-server/src/maintenance.rs:163-175 | one statement in its own transaction: the counted rows are gone, or a failure changed nothing |
| RetentionRun.Database.PruneWebhookRecords | crates/owlauth-server/src/maintenance.rs:305-331 | the four webhook statements run in order under one shared budget, all or nothing, and their count never exceeds the batch size |
| RetentionRun.Database.PrunePool | crates/owlauth-server/src/maintenance.rs:119-148 | success is the whole run with the exact counts and their sum; a failure leaves exactly some number of committed classes |
| RetentionRun.Database.Prune | crates/owlauth-server/src/maintenance.rs:100-117 | an invalid batch size or schema touches no row, and CountOverflow is never returned |
| RetentionRun.BoundedCountsNeverOverflow | crates/owlauth-server/src/maintenance.rs:48-64 | the checked total of bounded counts is their sum |
| RetentionRun.RunKeepsIntegrity | crates/owlauth-server/src/maintenance.rs:119-148 | every run, complete or cut short after any class, keeps every key, whatever was locked |
| RetentionSafety.GenerationsLeaveOnlyByRetention | crates/owlauth-server/src/maintenance.rs:209-253 | over a whole run, the refresh generations that disappear are exactly as many as were counted, each past its own retain_until, and the others are unchanged |
| RetentionLive.RunKeepsLive | crates/owlauth-server/src/maintenance.rs:90-148 | at any times and under any locks, no run, complete or cut short, removes or alters a login, logout, session or browser that is not a day past expiry, a challenge, message, handoff or token family these own, a refresh generation within its retention, a test not a day past completion, unerased material, a leased delivery, or an unexpired event with its deliveries and attempts |
| RetentionSafety.StatementShrinks | crates/owlauth-server/src/maintenance.rs:177-413 | every counted row leaves its table or its pending state for good |
| RetentionSafety.RunShrinks | crates/owlauth-server/src/maintenance.rs:119-148 | rows plus pending deliveries drop by at least the reported total, at any times and under any locks |
| RetentionConvergence.ZeroTotalIffSettled | crates/owlauth-server/src/maintenance.rs:119-148 | without locks, a run reports zero if and only if no statement has an eligible row, and it then changes nothing |
| RetentionConvergence.PruningSettles | crates/owlauth-server/src/maintenance.rs:119-148 | with any batch size of at least one, enough runs reach a state in which nothing is eligible |
| RetentionDepth.FullRun | crates/owlauth-server/src/maintenance.rs:305-413 | a run whose batch fits the tables takes everything each webhook statement finds, under the shared budget |
| RetentionDepth.ParentSurvivesRun | crates/owlauth-server/src/maintenance.rs:372-394 | no run, whatever its batch, takes a delivery together with its replay |
| RetentionDepth.NeverSooner | crates/owlauth-server/src/maintenance.rs:305-413 | no batch size settles a removable chain of replays in fewer runs than it has deliveries |
| RetentionDepth.SettlesWithTheLongestChain | crates/owlauth-server/src/maintenance.rs:119-148 | with a batch that fits the tables, n runs settle them if and only if no removable chain of replays has more than n deliveries |
| RetentionSurvivors.LeasedBelow | crates/owlauth-server/src/maintenance.rs:333-394 | once settled, an expired delivery is still there only above a leased delivery at the end of a chain of replays |
| RetentionSurvivors.DeliverySurvives | crates/owlauth-server/src/maintenance.rs:305-413 | a delivery survives all pruning if and only if its event is not expired or a leased delivery descends from it by replays |
| RetentionSurvivors.EventSurvives | crates/owlauth-server/src/maintenance.rs:396-413 | an event survives all pruning if and only if it is not expired or one of its deliveries is leased |
| RetentionSurvivors.AttemptSurvives | crates/owlauth-server/src/maintenance.rs:353-370 | an attempt survives all pruning if and only if its delivery is leased or belongs to an event that is not expired |
| RetentionOrder.OneRunExhausts | crates/owlauth-server/src/maintenance.rs:119-148 | the class order is topological: a batch at least as large as each table leaves nothing eligible in the first five classes after one run |
| RetentionOrder.SecondRunIsIdle | crates/owlauth-server/src/maintenance.rs:119-148 | the next run at that time deletes nothing in those classes, whatever its batch size and locks |
| Profiles.OriginRoundTrip | crates/owlauth-cli/src/remote.rs:752-772 | parsing the serialisation of an accepted endpoint, scheme, host, port and path, gives the endpoint back |
| Profiles.EndpointReloads | crates/owlauth-cli/src/remote.rs:752-772 | an accepted endpoint, written out and read back, is accepted as the same endpoint |
| Profiles.ProfileFile.MutateStore | crates/owlauth-cli/src/remote.rs:984-1004 | a mutation replaces the stored file by exactly its committed result, or leaves the file untouched and reports the mutation's own error or a storage failure |
| ProfileRuns.CommitIsSerial | crates/owlauth-cli/src/remote.rs:541-584 | a commit that goes through does what its command would do run alone on the store of that moment |
| ProfileRuns.Serialisable | crates/owlauth-cli/src/remote.rs:183-300 | every interleaving leaves the store that the successful commands leave one at a time in commit order, with their replies and resolved names |
| ProfileRuns.ReceiveIsGood | crates/owlauth-cli/src/remote.rs:715-750 | whatever the discovery reply, a resulting mutation carries only valid names and URLs of the endpoint's own origin |
| ProfileRuns.RunKeepsGood | crates/owlauth-cli/src/remote.rs:199-300 | over every run the current profile exists, and names, endpoints, credential variables and cached URL origins stay valid |
| ProfileRuns.ReloadsIffItFits | crates/owlauth-cli/src/remote.rs:957-982 | from no store, every stored file reloads as itself if and only if its size is within the limit |
| ProfileRuns.OversizedForever | crates/owlauth-cli/src/remote.rs:957-1004 | an oversized file never changes again and no command succeeds on it |
| ProfileGrowth.ValidAddsOutgrowTheLimit | crates/owlauth-cli/src/remote.rs:984-1027 | however stores are written out, if every profile takes a byte, a run of valid adds from no store ends in a successful commit of a file that no command can load |
| ProfileRuns.AuthorityStep | crates/owlauth-cli/src/remote.rs:250-287 | the authority of a profile changes only at the commit of a rebind whose snapshot still has the stored authority, and the credential variable then differs |
| ProfileRuns.CredentialsAlternate | crates/owlauth-cli/src/remote.rs:823-829 | over every run, from any store or none, a profile once added stays, its consecutive authorities use different credential variables, and the last is the stored one |
| Readiness.Page | crates/owlauth-server/src/adapters/postgres/custody.rs:389-470 | a page is ascending, bounded, strictly after the cursor, and empty only when nothing is left |
| Readiness.PageIsComplete | crates/owlauth-server/src/adapters/postgres/custody.rs:389-470 | whatever a page leaves out comes after all of it |
| Readiness.SteadyThroughout | crates/owlauth-server/src/adapters/postgres/custody.rs:529-541 | between two reads of one revision the inventory was one and the same at every instant |
| Readiness.AuthenticatePage | crates/owlauth-server/src/composition.rs:424-437 | if the inventory stood still, a finished page has everything up to its last entry properly owned and authenticated, and a failed one failed on a live material |
| Readiness.ScanIsShort | crates/owlauth-server/src/composition.rs:421-438 | one page more than an inventory fills, and the next page of it is empty |
| Readiness.AuthenticateInventory | crates/owlauth-server/src/composition.rs:404-439 | the scan ends; if the inventory of n materials stood still, success means every material is supported, properly owned and authenticated, failure means one is not or a read failed, and at most n / 128 + 2 pages were read |
| Readiness.ValidateReadiness | crates/owlauth-server/src/composition.rs:384-402 | acceptance implies a successful scan of one single-revision inventory; a scan failure is reported only for such a scan; giving up implies the revision moved in every attempt; a quiet deployment is accepted if and only if every material is supported |
| Providers.ContainsIsMembership | crates/owlauth-key-provider/src/values.rs:79-101 | a capability set is constructed if and only if its values are distinct, non-empty and bounded, and binary search in it is membership in the declared values |
| Providers.ProviderRegistry.Perform | crates/owlauth-server/src/providers.rs:106-169 | the first capability reported under its own identifier stays; a misnamed or repeated one is refused with that error and changes nothing |
| Providers.RegistrationsAreSound | crates/owlauth-server/src/providers.rs:345-355 | after any sequence of registrations every capability sits under the identifier it reports, with properly declared sets |
| Providers.AcceptedIffDeclared | crates/owlauth-server/src/providers.rs:176-257 | after any registrations a mode is accepted if and only if the declared capabilities let its planes create under both selections, sign and open, and let a combined process use what it creates |
| Providers.AcceptedSelectionsAreUsable | crates/owlauth-server/src/providers.rs:290-309 | if the combined mode is accepted after any registrations, material created under either active selection is supported at run time |
| Context.Output.PushField | crates/owlauth-key-provider/src/context.rs:260-266 | a field is appended as tag, big-endian length and value, or refused if its length does not fit, leaving the output as it was |
| Context.EncodeV1 | crates/owlauth-key-provider/src/context.rs:226-258 | appending step by step yields the canonical encoding |
| Context.LengthBound | crates/owlauth-key-provider/src/context.rs:164-202 | canonical bytes never exceed 802, so construction fails if and only if the generation is zero |
| Context.RoundTrip | crates/owlauth-key-provider/src/context.rs:226-266 | decoding canonical bytes followed by anything gives back the exact parts and the rest |
| Context.PrefixFree | crates/owlauth-key-provider/src/context.rs:226-266 | no context's bytes are a prefix of another's, so the encoding is injective |
| JsonPointer.DecodeIsUnescape | scripts/sdk-contract.py:185-186 | the two successive replacements are the left-to-right unescaping of section 4 of RFC 6901, for every string |
| JsonPointer.EscapeRoundTrip | scripts/sdk-contract.py:185-186 | every name has a segment that decodes to it and holds no separator |
| JsonPointer.ResolveComponent | scripts/sdk-contract.py:189-198 | a component reference resolves to the component it names however its segments are escaped, so equal decodings have one target |
| JsonPointer.UnescapeChanges | scripts/sdk-contract.py:185-186 | unescaping changes exactly the strings that hold a ~0 or a ~1, and shortens them |
| JsonPointer.SecurityReferenceNamesItsScheme | scripts/sdk-contract.py:383 | the built reference denotes the scheme if and only if its name has no separator, no ~0 and no ~1 |
| JsonPointer.SecurityReferenceMisses | scripts/sdk-contract.py:383 | the scheme a~1b is looked up as a/b |
| Contract.StripIdempotent | scripts/sdk-contract.py:235-252 | stripping annotations twice is stripping them once, in both modes |
| Contract.StripAddsNoReference | scripts/sdk-contract.py:201-252 | stripping introduces no reference, in both modes |
| Contract.TextualIsFollowedOrHidden | scripts/sdk-contract.py:201-217 | the collector misses exactly the references among names or inside opaque values |
| Contract.ReachableIsLeast | scripts/sdk-contract.py:385-401 | the reachable references are inside every closed set that holds the initial ones |
| Contract.EdgesAreFinite | scripts/sdk-contract.py:385-401 | following a reference yields only strings of the document, which bounds the worklist |
| Contract.CloseReferences | scripts/sdk-contract.py:385-401 | the worklist ends; it succeeds if and only if every reachable reference is usable, and its components are then exactly the stripped runtime components of the reachable references, in any pop order |
| OpenApi.DocumentOperations | scripts/sdk-contract.py:146-182 | the loop over paths and methods gives the operations of the document, or nothing if an item, an identifier or its uniqueness is amiss |
| OpenApi.EverySlotIsExtracted | scripts/sdk-contract.py:146-182 | every HTTP method of every path is an operation, with its upper-case verb, path and value |
| OpenApi.EveryOperationHasASlot | scripts/sdk-contract.py:146-182 | every operation comes from a method of a path with that identifier |
| JsonText.Sorted | scripts/sdk-contract.py:85-96 | keys are written once each in ascending order |
| JsonText.DumpShows | scripts/sdk-contract.py:85-96 | a plain word inside any key or string of a value shows in its canonical text |
| Surface.Normalize | scripts/sdk-contract.py:347-419 | from extracted operations: success if and only if they are acceptable and the text of the surface shows no forbidden word |
| Surface.NormalizedSurface | scripts/sdk-contract.py:271-419 | success if and only if the documents are acceptable and the text of their surface shows no forbidden word; the result is the claimed operations with exactly the components reachable from them, and no other plane serves any of them |
| Surface.NoForbiddenVocabulary | scripts/sdk-contract.py:403-411 | no key or string of an accepted surface contains a forbidden word that needs no escaping |
| Surface.SurfaceIsSelfContained | scripts/sdk-contract.py:385-401 | no collected reference in a surface dangles, from an operation or from a component |
| Surface.TextIsSelfContainedIff | scripts/sdk-contract.py:201-217 | no reference at all in the text of a surface dangles if and only if none that the collector skips does |
| Surface.NamedSchemesArePresent | scripts/sdk-contract.py:366-383 | a security scheme named by a claimed operation is in the surface if and only if its name needs no escaping or another reachable reference names it |
| SurfaceWitness.NamedSchemeIsMissing | scripts/sdk-contract.py:271-419 | runtime and control documents and a policy that the normaliser accepts, whose surface lacks the scheme a~1b that a claimed operation names and a schema that its text refers to |
| Surface.SurfaceIsDetermined | scripts/sdk-contract.py:347-419 | documents that agree on claimed operations, root security and reachable components give identical surfaces whatever else differs |
| SemVer.ParseAcceptsTheGrammar | scripts/release/verify-shared-crate-version.py:12-38 | the parser accepts exactly the rendered versions of the grammar and returns their parts |
| SemVer.DissectOfRender | scripts/release/verify-shared-crate-version.py:12-38 | taking a rendered version apart gives back its parts, so the grammar is unambiguous |
| SemVer.NumeralsAreInjective | scripts/release/verify-shared-crate-version.py:12-38 | numerals without leading zeros with equal values are equal text |
| SemVer.LessThan | scripts/release/verify-shared-crate-version.py:41-62 | the early-return comparison is precedence as in section 11 of SemVer 2.0.0 |
| SemVer.PrecedenceIsStrict | scripts/release/verify-shared-crate-version.py:41-62 | precedence is irreflexive and transitive |
| SemVer.IncomparableIffSame | scripts/release/verify-shared-crate-version.py:41-62 | two versions are incomparable if and only if core and pre-release are identical |
| ReleaseGate.RemoteTags | scripts/release/verify-shared-crate-version.py:65-74 | the collected set is exactly the tags of the well-formed listing lines |
| ReleaseGate.Gate | scripts/release/verify-shared-crate-version.py:77-113 | exit status zero if and only if no other server or CLI tag blocks the version, two if and only if it is not a version |
| ReleaseGate.LaterIsNotBelow | scripts/release/verify-shared-crate-version.py:77-113 | a release accepted with an earlier accepted one in view has the same version text or strictly higher precedence |
| ReleaseGate.HistoryNeverFalls | scripts/release/verify-shared-crate-version.py:77-113 | in every gated history precedence never decreases, and equal precedence means equal version text |
| Materialise.Checkout.PrepareRelease | scripts/release/prepare_release.py:261-318 | a publishable release performs exactly its writes in order; an unpublishable one writes nothing |
| Materialise.Checkout.Materialise | scripts/release/prepare_release.py:354-369 | a checkout is taken to the prepared state if and only if the release is publishable and the checkout is the development state or that prepared state; otherwise nothing changes |
| Materialise.WritesAreTheOverrides | scripts/release/prepare_release.py:146-176 | the written locations are exactly the overridden ones, each written once |
| Materialise.PreparingWritesTheOverrides | scripts/release/prepare_release.py:261-318 | from the development state the writes give the state the validator expects |
| Materialise.PreparingIsIdempotent | scripts/release/prepare_release.py:261-318 | preparing a prepared checkout changes nothing |
| Materialise.PreparedStatesAreDistinct | scripts/release/prepare_release.py:179-258 | prepared states differ from development and from each other for different component and version pairs |
| Materialise.CrashStatesAreRefused | scripts/release/prepare_release.py:354-369 | after a crash strictly between the first and last write the checkout is neither development nor any prepared state |
| Upload.BodyRoundTrip | scripts/release/upload-crate.py:238-243 | the length-framed body parses back to exactly the metadata and archive |
| Upload.ProtocolPublishesOnce | scripts/release/upload-crate.py:227-263 | whatever the answers, a run that follows the protocol publishes at most once, the qualified bytes, directly after seeing the version absent |
| Upload.ProtocolEnds | scripts/release/upload-crate.py:205-263 | a run makes at most two exchanges more than it may poll, and has then ended |
| Upload.Registry.Lookup | scripts/release/upload-crate.py:135-157 | a lookup is recorded with its answer, and what it shows is in the registry |
| Upload.Registry.Publish | scripts/release/upload-crate.py:244-253 | a publish is recorded with its body and answer; accepted means the version was absent and now has the digest of the body's archive, and published versions never change |
| Upload.WaitForChecksum | scripts/release/upload-crate.py:205-224 | polling follows the protocol to its end; success means the registry holds the expected digest; different bytes are reported only if the registry holds others, and never if it held the expected ones at the start |
| Upload.Run | scripts/release/upload-crate.py:160-263 | the recorded exchanges are a complete run of the protocol with at most one publish; success means the registry holds the digest of the qualified bytes; an accepted publish is never reported as different bytes; a rejected candidate makes no request |
| Uploaders.EachFollowsTheProtocol | scripts/release/upload-crate.py:227-263 | in every interleaving of any number of uploaders and other clients, the exchanges of each uploader are a run of the protocol up to its phase, with at most one publish |
| Uploaders.AllTruthful | scripts/release/upload-crate.py:205-263 | in every interleaving, an uploader that ended in success or with different bytes reports what the registry holds |
| Uploaders.SuccessesAgree | scripts/release/upload-crate.py:160-263 | in every interleaving, all uploaders that succeeded for one version hold archives of one digest, which is the registry's |
| Uploaders.AcceptedIsStored | scripts/release/upload-crate.py:244-253 | in every interleaving, an accepted publish found the version absent at the start and its archive's digest is what the registry holds ever after |
| Uploaders.AtMostOneAccepted | scripts/release/upload-crate.py:244-253 | in every interleaving, at most one publish of a version is ever accepted |
| Uploaders.EachEnds | scripts/release/upload-crate.py:205-263 | in every interleaving, each uploader ends after at most two exchanges more than it may poll |
| Uploaders.FairUploaderDecides | scripts/release/upload-crate.py:227-263 | however the others behave, an uploader whose own exchanges go well has ended after its third turn, in success if and only if the registry holds its bytes |
| Uploaders.UncontestedUploadSucceeds | scripts/release/upload-crate.py:227-263 | if moreover nobody offers other bytes for its version, it has then succeeded |
| Collections.SizeTellsDistinct | scripts/sdk_evidence.py:145-167 | comparing a list's length with its set's size tells whether it has repeats |
| Evidence.CheckIsolation | scripts/sdk_evidence.py:145-167 | the scan accepts if and only if every identity is given and no two assignments share a project or an application |
| Evidence.QualificationResults | scripts/sdk_evidence.py:52-98 | accepted if and only if there are fragments, each matches its candidate, none repeats, and together they fill every matrix |
| Evidence.BrowserResults | scripts/sdk_evidence.py:101-209 | accepted if and only if every result passed, no browser repeats and every browser occurs |
| Evidence.Aggregate | scripts/sdk_evidence.py:212-278 | manifests are written if and only if the candidates share one coordinate and both result sets are accepted, one for each component |
| Evidence.Verify | scripts/release/verify-sdk-evidence.py:47-174 | a manifest is accepted if and only if it is bound to its descriptor and the caller's expectations, with full coverage and isolated assignments for the expected browsers in order |
| Evidence.ManifestsVerify | scripts/release/verify-sdk-evidence.py:47-174 | the producer's manifest is accepted if and only if the caller asks for its component, the descriptor is filed under its own component, the expectations match, and the browser results were in order where both count |
| EvidenceWitnesses.EitherOrderIsAccepted | scripts/sdk_evidence.py:212-234 | all candidates that share a coordinate have fragments and results that the producer accepts, with the browser results in either order |
| EvidenceWitnesses.FirefoxFirstIsRefused | scripts/sdk_evidence.py:101-209 | for all such candidates the producer accepts the results with firefox first, and the verifier refuses the manifest for every caller |
| EvidenceWitnesses.MisfiledIsRefused | scripts/sdk_evidence.py:212-219 | whatever is filed under a component it does not name, the producer accepts it and the verifier refuses the manifest for every caller |

## Left out

- HTTP, TLS, sockets, file locks and temporary files: a store commit is atomic, and replies and failures are arbitrary.
- PostgreSQL itself: statements are atomic, and the repository's page, revision and replay rules enter as stated contracts.
- Children of a login other than challenges, outbox messages and handoffs, and the SMTP credential key: further cascades of the same shape.
- Connection failures before a prune are one database failure that touches nothing; the missing-pool and missing-identity errors of the readiness check are not modelled.
- The serialised size of a profile store is the parameter `bytes`; JSON text, duplicate keys and unknown fields are not modelled.
- `inspect`, `system` and the authenticated commands of the CLI: they read the store and send requests, with no transition of their own.
- Documents that spell one method of a path in two ways: the model compares all such operations across planes, the source the last one in document order.
- The host parser of the URL library is a parameter, and only origins are parsed; that other URLs parse back from their serialisation is taken from the URL standard.
- How numbers are written in the canonical text is the parameter `number`.
- ReleaseGate.HistoryNeverFalls: assumes that each listing shows all earlier tags, which is the remote's promise and not the script's.
- The registry's immutability and first-write-wins rule are assumptions about the registry, as the upload script makes them.
- The digit limit of Python's `int` on very long version numbers.
- Error order between independent checks of one evidence file: a file is accepted or refused, and messages are not distinguished.
- Canonical JSON, archive digests and the sorted order of the written matrix beyond its elements: digests are functions, and the declared matrix is written in sorted order.
- Partial writes within one file during materialisation: a crash falls between writes.
- Bounded identifier constructors, opaque byte values, zeroisation and constant-time comparison of the key provider crate.
- `config.rs`, `control.rs`, worker loops, the web interface and the OpenAPI types: long or declarative, with branch-by-branch claims only.
